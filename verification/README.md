# A verified model of the ad-event pipeline

The pipeline counts ad impressions twice: online, in a Flink SQL job that de-duplicates by first
arrival and closes one-minute windows by watermark, and offline, in a Spark batch that de-duplicates
the whole archive and keeps one impression per ad request. `spark/reconcile.py` prints
`batch - realtime = late - ssai + residual` per campaign and promises a residual of 0. This project
models both routes and everything that feeds them, and proves what the residual really is.

| file | what it models |
|---|---|
| `events.dfy` | records, topics, minutes and days |
| `realtime.dfy`, `lateness.dfy` | the streaming job: its state machine, the lateness bound |
| `ttl.dfy`, `expiry.dfy` | expiry of the de-duplication state; the job that forgets against the one that does not |
| `recovery.dfy`, `crashinputs.dfy` | checkpoints and crashes of the job that forgets; runs in which a crash can be seen |
| `batch.dfy`, `settlement.dfy` | the Spark batch: de-duplication, SSAI choice, daily and minute tables |
| `residual.dfy`, `promise.dfy`, `reconcile.dfy` | what the residual counts; when it is 0 for every order of arrival; the report that prints it |
| `columns.dfy` | every counter of a minute read off the records: what the stream counts, what the batch counts, what lies between |
| `serving.dfy` | the Redis writer, its index and its range query |
| `decision.dfy`, `campaigncache.dfy` | one outbox row per decision; the budget-weighted choice |
| `outbox.dfy`, `outboxworker.dfy` | N outbox workers as a protocol; a poll as the program runs it, between the steps of others |
| `failopen.dfy`, `collector.dfy` | the collector's publish, fallback files, replay and gauge: the protocol, and the objects that carry it out |
| `ratecontrol.dfy` | the generator's speed correction |
| `composition.dfy` | the parts put together: decisions to counted requests, records to the printed residual |
| `finite.dfy`, `ordering.dfy` | counting over finite maps; string order |

Online and offline code is related through a *history*: which ids were counted and which were
dropped, decided by first arrival and the watermark at that moment. The state machine is shown to be,
at every step, the group-by of its history; the residual is then a matter of comparing sets of ids.
Code that updates objects in place is a class whose methods are proved equal to the step functions of
a protocol, and the protocol's runs carry the theorems.

## Where the code does not keep a promise

* `residual 0` (spark/reconcile.py:27-31). Suppose both jobs saw the same records, copies agree on topic,
  type and campaign, every window has fired, and no id expired. Then the residual is 0 for every campaign,
  every range of whole minutes and every order of arrival if and only if no record is *stray* and all
  copies of an impression share a minute (`Promise.PromiseExactlyWhen`). A stray record is an impression
  to the stream that the batch does not settle: its type is spelled otherwise (`ad_impression` is accepted
  by the router) or its campaign is `none`, `nofill` or `pending` (failing input
  `Residual.OtherSpellingUnbalances`). Copies leave their minute when the pixel endpoint stamps a resend
  without `ts` with the current time, against the comment at sql/pipeline.sql:301; if the resend overtakes
  the original, two minutes are off by one (failing input `Residual.ReorderedResendUnbalances`). Within
  one minute the copies may differ.
* Upserts alone do not make a restart invisible (sql/pipeline.sql:192-198). After any crashes the sinks are
  those of a run without a crash that makes the reads which survived, with two exceptions: a late row written
  of a read that a crash took back may still stand, and late messages may be counted twice
  (`Recovery.Recovered`; failing inputs `CrashInputs.StaleRowStays` and `CrashInputs.LateTotalOvercounts`, the
  latter as docs/02-data-stores.md:301-302 says). And the surviving reads are later ones, so an id may have
  expired in between (failing input `CrashInputs.ExpiresInBetween`). If no read is stale, nothing can be seen
  of a crash (`Recovery.CrashesLeaveNoTrace`).
* The TTL (sql/pipeline.sql:21-24) counts an event twice in a window exactly when a copy that has a column
  is admitted again into an open minute (`Ttl.RecountsExactlyWhen`, failing input
  `Ttl.StalledWatermarkRecounts`); a copy admitted again into a closed minute adds a late row to one that was
  counted, or rewrites its late row (`Expiry.LateRowsExactlyWhen`, failing input `CrashInputs.RowOverwritten`).
  With crashes and expiry the residual is 0 everywhere if and only if no impression is stray, none was both
  counted and late, and none was counted again (`Composition.ResidualExactlyWhen`).
* A replay of a fallback file ends in a rename that does not overwrite. Within one hour a second
  fallback file has the name of the first; every replay of it publishes all its lines and then fails,
  and so does the next (failing input `FailOpen.StuckFromStart`; exact condition in
  `FailOpen.MovedExactlyWhen`).
* The backlog gauge drifts: too high by an event whose write failed, too low by the acknowledged lines of
  a file of which another line failed (failing inputs `FailOpen.GaugeTooHigh` and `FailOpen.GaugeTooLow`).
  `FailOpen.GaugeKeptExactlyWhen` says which actions leave it right, `FailOpen.GaugeLaw` adds them up.
* A campaign without budget can be picked, by the draw 0 and only if it is first
  (`CampaignCache.ZeroBudgetOnlyAtZero`).
* `classify` returns early when one side is 0 and then says nothing of the residual; the line still
  carries it (`Reconcile.Classify`). A campaign that has only late rows gets no line at all.

## Model

| member | source | states |
|---|---|---|
| `Realtime.RunAgrees` | sql/pipeline.sql:303-353 | for every interleaving of events, copies and watermarks: the seen ids, open accumulators, emitted rows and late rows are exactly those of the offline history |
| `Realtime.ThreeParts` | sql/pipeline.sql:315-353 | at every moment the admitted ids split into fired, open and late, pairwise disjoint; each sink holds exactly the groups of its own part, with the group-by counts |
| `Realtime.FirstArrivalDecides` | sql/pipeline.sql:303-310 | the event kept of an id is its first arrival, dropped exactly if its minute was closed at that moment |
| `Realtime.HistoryIds` | sql/pipeline.sql:303-310 | an id is placed exactly if an event with it arrived |
| `Realtime.StepIsFresh` | sql/pipeline.sql:315-326 | a step emits only windows never emitted, and drops only ids never dropped, before |
| `Realtime.WrittenForever` | sql/pipeline.sql:315-353 | what was emitted or dropped is never changed by a later step |
| `Realtime.AdmitReflects` | sql/pipeline.sql:329-353 | the window operator and the separately computed late filter agree: an admitted event is counted by one or listed by the other |
| `Realtime.TickReflects` | sql/pipeline.sql:325-326 | a watermark moves whole groups from open to emitted and keeps all counts |
| `Realtime.LateTotalIsExact` | redis-writer/writer.py:222-233 | without a crash the counter is the number of late rows |
| `Realtime.TallyAdd` | sql/pipeline.sql:316-326 | one more event changes the group-by of its own window and campaign as the accumulator does, and no other |
| `Ttl.RecountsExactlyWhen` | sql/pipeline.sql:21-24 | if copies lie in one window and are of one kind: sinks and accumulators are explained by the history at every moment iff no event that has a column is admitted again into an open minute |
| `Ttl.InTimeExactlyWhen` | sql/pipeline.sql:21-24 | and that is so iff minutes close within the TTL of the first arrival of each id that has a column and comes again |
| `Ttl.ClosingInTimeNeverRecounts` | sql/pipeline.sql:21-24 | without assuming that copies agree: if every copy that comes a TTL after the first arrival finds its minute closed, it only becomes a late row |
| `Ttl.WithoutExpiry` | sql/pipeline.sql:24-24 | if no copy comes after its id expired, the job with expiry is the job without |
| `Ttl.ReadmittedIsStale` | sql/pipeline.sql:21-24 | only an event whose id first arrived a TTL or more ago passes de-duplication again |
| `Ttl.StalledWatermarkRecounts` | sql/pipeline.sql:21-24 | failing input for the condition of RecountsExactlyWhen: the same impression is counted twice in one window |
| `Expiry.RunsBeside` | sql/pipeline.sql:21-24 | when copies lie in one cell, at every moment: the job with expiry has the windows and ids of the one without; in no column does it count less, and it counts more exactly when an input was counted again in it |
| `Expiry.MinuteRowsExactlyWhen` | sql/pipeline.sql:21-24 | with all windows fired the minute rows are those of the job without expiry iff no input was counted again |
| `Expiry.LateRowsExactlyWhen` | sql/pipeline.sql:344-353 | the late rows are those of the job without expiry iff the last late read of every id left the row that its first arrival left |
| `Recovery.Reachable` | sql/pipeline.sql:18-24 | invariant of every run of timed reads, partial writes, checkpoints and crashes: the job is where the surviving reads lead |
| `Recovery.CheckpointHolds` | sql/pipeline.sql:192-215 | at every moment: the minute rows up to the checkpoint stand, and the late rows but for those written since or of reads taken back |
| `Recovery.FlushWrites` | sql/pipeline.sql:192-198 | a partial write puts exactly the rows it names into the sinks as the job made them |
| `Recovery.CanCover` | sql/pipeline.sql:18-20 | from every run a checkpoint that covers the input can be reached |
| `Recovery.Recovered` | sql/pipeline.sql:192-215 | at a covering checkpoint, for every run: late rows = those of the surviving reads without a crash, overwritten by the standing rows of reads taken back, equal iff those are among them; late:total = that run's plus the messages sent again; its minute rows are all there |
| `Recovery.CrashesLeaveNoTrace` | sql/pipeline.sql:192-215 | clocks forward and no executed read a copy of an event read a TTL or more before: minute rows and late rows equal those of the job without expiry and without a crash, and late:total is the row count plus the messages sent again, equal iff there were none |
| `Recovery.MinuteRowsSurvive` | sql/pipeline.sql:18-24 | when copies lie in one cell: at a covering checkpoint the minute rows equal those of the surviving reads without a crash |
| `Recovery.MinuteRowsExactlyWhen` | sql/pipeline.sql:18-24 | with all windows fired they equal those of the job without expiry iff no surviving read counted an id again; for forward clocks, iff minutes close within the TTL of the first read of each id that comes again |
| `Recovery.LateRowsExactlyWhen` | sql/pipeline.sql:192-215 | the late rows, not only their ids, equal those of the job without expiry iff every standing row of a read taken back is one of its rows and every other id's last late read left the row of its first arrival |
| `CrashInputs.ExpiresInBetween` | sql/pipeline.sql:21-24 | failing input: a copy read just before its id expires, then read again after a crash, makes a late row of a counted event |
| `CrashInputs.StaleRowStays` | sql/pipeline.sql:192-198 | failing input: a late row of a read taken back stays although no surviving read makes it |
| `CrashInputs.RowOverwritten` | sql/pipeline.sql:344-353 | failing input without a crash: a copy read after the TTL rewrites the late row, while the ids stay the same |
| `Recovery.NeverWrong` | sql/pipeline.sql:192-198 | if no executed read is stale, then at every moment each row is the final one or absent |
| `CrashInputs.LateTotalOvercounts` | redis-writer/writer.py:222-233 | failing input: one late row, counter 2 |
| `Lateness.SharpBound` | sql/pipeline.sql:329-353 | watermark delay d: an event L ms behind the newest is dropped iff its position in the minute is at least d + 59999 - L |
| `Lateness.AlwaysOrNever` | sql/pipeline.sql:329-353 | dropped at every position iff L >= d + 59999, at none iff L < d |
| `Lateness.LostPositions` | sql/pipeline.sql:329-353 | how many of the 60000 positions a lag loses |
| `Lateness.DefaultDelay` | README.md:1324-1325 | with d = 10 s: 60 s late survives at 9999 of 60000 positions, 90 s late never |
| `Batch.DedupExists` | spark/batch_settlement.py:66-72 | `row_number() = 1` has an outcome for every input |
| `Batch.DedupIgnoresCopiesAndOrder` | spark/batch_settlement.py:66-73 | sequences with the same records have the same outcome if tied rows agree |
| `Batch.RerunIsStable` | spark/batch_settlement.py:66-73 | a re-run gives the same table iff tied rows agree on the columns read |
| `Batch.EarliestIsKept` | spark/batch_settlement.py:66-72 | the row kept of an id carries the fields of a record of that id with the least event_time, ties by the least topic name |
| `Batch.RankIsNameOrder` | collector/src/main/kotlin/com/ottads/collector/model/Topics.kt:11-15 | the order of the topics is the string order of their names |
| `Ordering.StrLessMeans` | spark/batch_settlement.py:95-97 | one string is before another iff after a common beginning it has ended or has the smaller character |
| `Batch.BuildPriority` | spark/batch_settlement.py:89-91 | the loop that nests the `when`s computes the first place of the source in the list, length + 1 if absent |
| `Batch.PlaceIsFirstIndex` | spark/batch_settlement.py:89-91 | that place is the least index holding the source |
| `Batch.RowNumberOne` | spark/batch_settlement.py:94-99 | row number 1 belongs to the one row that precedes all its rivals |
| `Batch.OnePerGroup` | spark/batch_settlement.py:94-99 | exactly one impression per group survives: none of its rivals has a better place, an earlier time in that place, or a smaller id at that time |
| `Batch.ChosenAreBest` | spark/batch_settlement.py:92-99 | an impression is kept iff it is in that sense the best of those of its ad request, one without an ad request competing under its own id |
| `Batch.ServerWins` | spark/batch_settlement.py:31-32 | by default a group with a server impression keeps a server impression |
| `Batch.DiscardedPerGroup` | spark/batch_settlement.py:98-105 | raw - kept = sum over groups of (size - 1) |
| `Settlement.MinuteSums` | spark/batch_settlement.py:219-237 | over any range of whole minutes, the sum of each column of the minute table is the number of ids it counts |
| `Settlement.MinutesAddUpToDays` | spark/batch_settlement.py:112-153 | for a key of the daily table all five counters are the sums of its minutes; without one the minutes hold no impression |
| `Settlement.DailyBounds` | spark/batch_settlement.py:130-162 | a daily row has at least one raw impression; impressions <= raw_impressions <= archived impression rows of that day and campaign, counted by position; dupes_removed is what the last two differ by |
| `Settlement.AmountIsClose` | spark/batch_settlement.py:161-161 | the amount is a whole number of cents within half a cent of impressions / 1000 * cpm, ties away from zero |
| `Settlement.DailyRowIs` | spark/batch_settlement.py:130-162 | a day and campaign has a row iff the de-duplicated archive has an impression there; its cpm is the campaign's rate or 0, its amount that of its impressions at this rate, and dupes_removed + raw_impressions the number of archived rows |
| `Settlement.SettledImpressions` | spark/batch_settlement.py:85-86 | the choice is made among the rows of type `impression` with a campaign other than none, nofill and pending |
| `Settlement.RowImpressions` | spark/batch_settlement.py:125-128 | in either table impressions are the best of each ad request among the raw impressions of the group |
| `Settlement.RedeliveryChangesNothing` | spark/batch_settlement.py:66-167 | copies and order change no count, no choice and no amount; a permutation also leaves dupes_removed |
| `Residual.ResidualIdentity` | spark/reconcile.py:23-31 | residual = archive-only ids - stream-only ids + ids in unfired windows - ids both counted and dropped, for any SSAI priority |
| `Residual.ResidualIsStray` | spark/reconcile.py:182-189 | same records, copies of an impression in one minute, no expiry, all windows fired: each residual is minus the number of stray ids |
| `Promise.PromiseExactlyWhen` | spark/reconcile.py:27-31 | the residual is 0 for every order of arrival, campaign and range iff no record is stray and copies of an impression share a minute |
| `Promise.CopyUnbalances` | sql/pipeline.sql:298-301 | for every copy outside the minute of the row the batch keeps there is an order of arrival that makes the residual negative |
| `Residual.BalancesExactlyWhen` | spark/reconcile.py:27-31 | for one order, copies in one minute: 0 for every campaign and range iff no record is stray |
| `Residual.ResidualWithExpiry` | spark/reconcile.py:27-31 | with expiry and no recount, the only further gap is the ids both counted and late; never positive |
| `Residual.ExpiryBalancesExactlyWhen` | spark/reconcile.py:27-31 | with expiry: 0 for every campaign and range iff no impression is stray, none was both counted and late, none was counted again |
| `Residual.ResidualBeyond` | spark/reconcile.py:23-31 | sinks with further late rows or counts: the residual is minus the stray, minus those both counted and late, minus those counted too many |
| `Residual.OtherSpellingUnbalances` | collector/src/main/kotlin/com/ottads/collector/service/TopicRouter.kt:10-11 | failing input: one `ad_impression` leaves -1 |
| `Residual.ReorderedResendUnbalances` | collector/src/main/kotlin/com/ottads/collector/web/TrackController.kt:73-77 | failing input: a resend stamped later that arrives first leaves -1 and +1 in two minutes |
| `Residual.StreamIds` | sql/pipeline.sql:263-268 | the impressions the stream places are those of the archived records of its topic |
| `Residual.ArchiveIds` | spark/batch_settlement.py:85-86 | the impressions the batch settles are those of type `impression` and a settled campaign |
| `Residual.DailyReportAgrees` | spark/reconcile.py:93-106 | a daily report reads the sums of its minutes |
| `Columns.MinuteRowIs` | sql/pipeline.sql:263-326 | all windows fired, copies alike: impressions, clicks, completes, requests and ssai_dupes of each minute and campaign are the distinct ids of the archived records told by topic and fields, without those that have a late row |
| `Columns.LateRowsAre` | sql/pipeline.sql:344-353 | the late rows of a kind, minute and campaign are the ids of such records that have a late row |
| `Columns.LateRowSays` | sql/pipeline.sql:344-353 | a late row carries kind, campaign, ad request and time of a record of its id, that minute's end, and a watermark that had reached it |
| `Columns.SettlementIs` | spark/batch_settlement.py:219-237 | each counter of each minute of the settlement is the distinct ids the stream counts or lists as late there, less those whose type is spelled otherwise or whose campaign is none; impressions the best of each ad request |
| `Columns.ColumnIdentity` | spark/batch_settlement.py:114-123 | for impressions, clicks, completes and requests, in every minute and campaign: online count + late rows = settled count + unsettled records |
| `Columns.ColumnBalancesExactlyWhen` | spark/batch_settlement.py:114-123 | so a column balances everywhere iff no record of its kind is unsettled |
| `Reconcile.Classify` | spark/reconcile.py:108-133 | which cause is named when; the parts listed are the non-zero ones, in order, and add up to late - ssai + residual |
| `Reconcile.Report` | spark/reconcile.py:179-214 | one balanced line per campaign of either side in name order, a missing side counting 0; the totals are the sums of both sides, of what the SSAI choice gave up and of the late impressions of the campaigns listed, and balance to the sum of the residuals |
| `Serving.RedisWriter.HandleAgg` | redis-writer/writer.py:194-219 | upsert with 48 hours to live, index and prune; hashes stay the last message of their key, and only keys older than the TTL leave the index |
| `Serving.ReindexKeeps` | redis-writer/writer.py:215-217 | after a message the index holds every score of the last 48 hours and none older (but before the epoch) |
| `Serving.KeysApart` | redis-writer/writer.py:54-57 | two messages share a key iff they are of one campaign and minute |
| `Serving.RedisWriter.HandleLate` | redis-writer/writer.py:222-233 | every late message with a time counts, repeats included; the minute's counter starts again when it has expired |
| `Serving.CountsSinceGap` | redis-writer/writer.py:222-233 | a minute's counter is the number of late messages since the last gap of 48 hours, and other counters stay |
| `Serving.RedisWriter.SumRange` | redis-writer/writer.py:71-95 | the answer is the plain sum of each field over the visible rows, for exactly the campaigns that have one |
| `Serving.RedisWriter.RecentRangeIsComplete` | redis-writer/writer.py:212-217 | inside the last TTL neither pruning nor expiry hides a key |
| `Serving.RedisWriter.VisibleIs` | redis-writer/writer.py:71-85 | a query sees of a key its last message, iff it lies in the range, is indexed and was handled within 48 hours |
| `Serving.RedisWriter.Summary` | redis-writer/writer.py:120-138 | a range cut to whole minutes, or a day; for a recent one the sums over the last message of every key |
| `Serving.AskedFor` | redis-writer/writer.py:120-130 | with both ends the minutes that end after `from` and by `to`, else the seconds of the day |
| `Outbox.RunInv` | ad-decision/src/main/kotlin/com/ottads/addecision/service/OutboxWorker.kt:116-168 | every interleaving of N workers keeps safety, exclusion, uniqueness and the accounts |
| `Outbox.NothingReverts` | ad-decision/src/main/kotlin/com/ottads/addecision/service/OutboxWorker.kt:163-167 | rows stay, published is never taken back, the log only grows |
| `Outbox.LocksAreDisjoint` | ad-decision/src/main/kotlin/com/ottads/addecision/service/OutboxWorker.kt:43-48 | SKIP LOCKED: batches are disjoint, ascending and unpublished; each has published a prefix; a published row is in the log |
| `Outbox.OldestFirst` | ad-decision/src/main/kotlin/com/ottads/addecision/service/OutboxWorker.kt:66-73 | a poll takes free rows only, the oldest in their order: a free row left over is younger than all of them, and then the batch is full |
| `Outbox.ErrorsAreFailedSends` | ad-decision/src/main/kotlin/com/ottads/addecision/service/OutboxWorker.kt:136-140 | over any run the error counter is the number of sends not acknowledged |
| `Outbox.SeenIsBounded` | ad-decision/src/main/kotlin/com/ottads/addecision/service/OutboxWorker.kt:142-142 | `seen` holds at most 200000 ids after a poll and is kept as it is below that |
| `Outbox.SkippedIsSum` | ad-decision/src/main/kotlin/com/ottads/addecision/service/OutboxWorker.kt:154-160 | over any run the counter of skipped updates is the number of rows published by polls that ended so |
| `Outbox.TimeoutMayArrive` | ad-decision/src/main/kotlin/com/ottads/addecision/service/OutboxWorker.kt:132-140 | a send given up on ends its poll unpublished and may reach the log afterwards |
| `OutboxWorker.NoRowIsStuck` | ad-decision/src/main/kotlin/com/ottads/addecision/service/OutboxWorker.kt:34-41 | from every reachable state: after a crash a single worker can publish all that is left |
| `Outbox.AtMostOnce` | ad-decision/src/main/kotlin/com/ottads/addecision/service/OutboxWorker.kt:44-48 | SKIP LOCKED and a clean run: no row is in the log twice |
| `Outbox.AtMostNTimes` | ad-decision/src/main/kotlin/com/ottads/addecision/service/OutboxWorker.kt:44-48 | without locking a clean run logs a row at most once per worker, and at least once when published |
| `Outbox.BooksBalance` | ad-decision/src/main/kotlin/com/ottads/addecision/service/OutboxWorker.kt:129-168 | idle workers, no ambiguous send: log = published rows + skipped + rolled back; republished = log - distinct ids unless `seen` was emptied |
| `Outbox.EachRowOnce` | ad-decision/src/main/kotlin/com/ottads/addecision/service/OutboxWorker.kt:125-168 | with all rows published, de-duplicating the log gives each row exactly once |
| `Outbox.DedupOrder` | ad-decision/src/main/kotlin/com/ottads/addecision/service/OutboxWorker.kt:125-168 | in the order of first publication |
| `OutboxWorker.Worker.Poll` | ad-decision/src/main/kotlin/com/ottads/addecision/service/OutboxWorker.kt:125-168 | whatever other workers, inserts and late deliveries do between its steps, the poll is a run of the protocol in which this worker's own actions are: select, sends up to the first failure, finish; each row up to the first failure is flagged if the update succeeds, and a free row not taken is younger than all taken |
| `OutboxWorker.Worker.SendRow` | ad-decision/src/main/kotlin/com/ottads/addecision/service/OutboxWorker.kt:132-140 | one send changes log, seen and counters as the protocol does, and tells whether it was a repeat |
| `OutboxWorker.Worker.SendNext` | ad-decision/src/main/kotlin/com/ottads/addecision/service/OutboxWorker.kt:131-141 | one pass of the loop, after any foreign actions, adds one send of this worker to the run |
| `OutboxWorker.Worker.FinishPoll` | ad-decision/src/main/kotlin/com/ottads/addecision/service/OutboxWorker.kt:142-167 | bounding `seen`, counting and the three ends are exactly the protocol's finish |
| `Decision.DecisionService.Decide` | ad-decision/src/main/kotlin/com/ottads/addecision/service/DecisionService.kt:107-182 | exactly one new row, which announces the response; when it fills, with what, and the reason if not; the counters keep counting the rows |
| `Decision.DecisionService.Choose` | ad-decision/src/main/kotlin/com/ottads/addecision/service/DecisionService.kt:112-116 | the first campaign with the id asked for if it is active, else a weighted draw; none iff forced, drawn out or no campaign |
| `Decision.FillIsRequest` | sql/pipeline.sql:284-289 | the stream counts a decision iff it was filled by a campaign not called `nofill`; the batch iff by one it settles |
| `CampaignCache.CampaignCache.Pick` | ad-decision/src/main/kotlin/com/ottads/addecision/service/CampaignCache.kt:72-83 | none iff the list is empty; without budget a uniform draw; else, no budget negative, the campaign k with prefix(k) < u * total <= prefix(k + 1), and the first for u = 0 |
| `CampaignCache.CampaignCache.ById` | ad-decision/src/main/kotlin/com/ottads/addecision/service/CampaignCache.kt:86-89 | the first campaign of the list with that id; none iff there is none or the id is missing or blank |
| `CampaignCache.ChosenInterval` | ad-decision/src/main/kotlin/com/ottads/addecision/service/CampaignCache.kt:77-82 | for 0 < r <= total the choice is the campaign whose interval (prefix, prefix + budget] holds r |
| `CampaignCache.ExactlyOne` | ad-decision/src/main/kotlin/com/ottads/addecision/service/CampaignCache.kt:77-82 | some campaign is chosen, never two |
| `CampaignCache.DrawsOf` | ad-decision/src/main/kotlin/com/ottads/addecision/service/CampaignCache.kt:77-82 | the draws u in (0, 1) that choose a campaign form an interval of length budget / total |
| `CampaignCache.ShareIsBudget` | ad-decision/src/main/kotlin/com/ottads/addecision/service/CampaignCache.kt:77-82 | with whole budgets exactly budget(c) of the draws 1..total choose c |
| `CampaignCache.ZeroBudgetOnlyAtZero` | ad-decision/src/main/kotlin/com/ottads/addecision/service/CampaignCache.kt:77-82 | a campaign without budget is chosen iff the draw is 0 and the first has none |
| `FailOpen.NothingVanishes` | collector/src/main/kotlin/com/ottads/collector/service/EventPublisher.kt:35-61 | in every run each message given to publish was acknowledged, stands on a line or was lost by a failed write, with multiplicity; what each counter counts |
| `FailOpen.TurnsLog` | collector/src/main/kotlin/com/ottads/collector/service/EventPublisher.kt:35-61 | a stretch of publishes logs the messages not refused, in order |
| `FailOpen.TurnsCount` | collector/src/main/kotlin/com/ottads/collector/service/EventPublisher.kt:41-59 | it counts each acknowledged one as accepted, each other as an error and a fallback |
| `FailOpen.StreakIs` | collector/src/main/kotlin/com/ottads/collector/service/EventPublisher.kt:38-48 | the streak is the number of failures since the last success |
| `FailOpen.DoneAfterAck` | collector/src/main/kotlin/com/ottads/collector/web/AdminController.kt:75-100 | a moved file holds the lines read, all acknowledged, then what was appended meanwhile; only acknowledged ones iff nothing was |
| `FailOpen.MovedExactlyWhen` | collector/src/main/kotlin/com/ottads/collector/web/AdminController.kt:92-99 | a replayed file is moved iff every line was acknowledged and its .done name was free |
| `FailOpen.ReplayReports` | collector/src/main/kotlin/com/ottads/collector/web/AdminController.kt:64-72 | unless a rename threw, replayed and failed are the numbers of own lines acknowledged and not, file by file |
| `FailOpen.FailureKeepsFile` | collector/src/main/kotlin/com/ottads/collector/web/AdminController.kt:94-97 | a failed line keeps its file, which only grows |
| `FailOpen.GaugeKeptExactlyWhen` | collector/src/main/kotlin/com/ottads/collector/web/AdminController.kt:64-100 | a publish keeps the gauge right iff it is acknowledged or written; the replay of a file iff, all lines acknowledged, no write failed and nothing was added (or the rename threw), or, a line failed, as many writes failed as lines were acknowledged |
| `FailOpen.GaugeLaw` | collector/src/main/kotlin/com/ottads/collector/metrics/CollectorMetrics.kt:36-45 | over any run the gauge is off by the sum of what each action did, and right iff that is 0; the sum is moved lines + lost events - drained |
| `FailOpen.GaugeTooHigh` | collector/src/main/kotlin/com/ottads/collector/service/FallbackWriter.kt:63-66 | failing input: one failed write |
| `FailOpen.GaugeTooLow` | collector/src/main/kotlin/com/ottads/collector/web/AdminController.kt:88-99 | failing input: one of two lines fails |
| `FailOpen.GaugeIsExact` | collector/src/main/kotlin/com/ottads/collector/metrics/CollectorMetrics.kt:36-45 | if all writes succeed and replays are clean, the gauge is the number of pending lines and nothing is lost |
| `FailOpen.StuckFile` | collector/src/main/kotlin/com/ottads/collector/web/AdminController.kt:94-97 | with a .done file of the hour, n replays send every line n times and change nothing else |
| `FailOpen.StuckFromStart` | collector/src/main/kotlin/com/ottads/collector/web/AdminController.kt:94-97 | failing input from an empty start: the second fallback file of an hour can never be replayed |
| `Collector.EventPublisher.Send` | collector/src/main/kotlin/com/ottads/collector/service/EventPublisher.kt:35-61 | the method is the protocol's publish, with the outcome of the broker's answer |
| `Collector.FallbackWriter.AppendLine` | collector/src/main/kotlin/com/ottads/collector/service/FallbackWriter.kt:37-67 | one line more in the hour's file, or, swallowed, a lost event |
| `Collector.EventIngestService.Ingest` | collector/src/main/kotlin/com/ottads/collector/service/EventIngestService.kt:28-75 | one publish per event; it ends INVALID, and counts as invalid and for the DLQ, iff it is invalid or has no topic, whatever became of the publish; ACCEPTED iff neither and acknowledged |
| `Collector.EventController.Events` | collector/src/main/kotlin/com/ottads/collector/web/EventController.kt:47-75 | invalid is the number of positions with an invalid or unroutable event, accepted of the others acknowledged, fallback the rest; too large a batch is refused untouched |
| `Collector.NumbersAre` | collector/src/main/kotlin/com/ottads/collector/web/EventController.kt:56-64 | the fold over outcomes counts those positions |
| `Collector.BatchIsRun` | collector/src/main/kotlin/com/ottads/collector/web/EventController.kt:56-57 | a batch is a run of publishes, so the theorems about runs hold of it |
| `Collector.AdminController.PendingFiles` | collector/src/main/kotlin/com/ottads/collector/web/AdminController.kt:102-107 | all pending files, in name order |
| `Collector.AdminController.ReplayOne` | collector/src/main/kotlin/com/ottads/collector/web/AdminController.kt:75-100 | the method is the protocol's replay of a file and counts what was acknowledged and what failed |
| `Collector.AdminController.ReplayAllFiles` | collector/src/main/kotlin/com/ottads/collector/web/AdminController.kt:55-73 | the loop over the files reports how many lines were acknowledged and how many failed; the gauge is drained once at the end, not if a rename threw |
| `RateControl.Reporter.Run` | generator/main.py:97-128 | the loop computes the corrected speed after any run of seconds, the first two a warm-up |
| `RateControl.CorrectedMeans` | generator/main.py:124-128 | a correction stays within 0.05 and 5000, is the full 1.35 or 0.825 when the rate is off by two or more, none on target, and a second without events counts as one event |
| `RateControl.WarmUp` | generator/main.py:122-128 | the first two seconds change nothing, each later one corrects |
| `RateControl.NeverCrosses` | generator/main.py:125-128 | the ratio moves towards 1 and never over it |
| `RateControl.ErrorShrinks` | generator/main.py:125-128 | within a factor of two the error is 0.65 to the power of the seconds, for good |
| `RateControl.BandIsReached` | generator/main.py:125-128 | from any positive ratio the band is reached within a number of seconds known beforehand |
| `RateControl.CorrectionIsNext` | generator/main.py:126-128 | a correction of a linear source is one step of the ratio, and the speed limits do not bind if they bind neither the speed nor the goal |
| `RateControl.LinearRun` | generator/main.py:97-128 | so a whole run follows the ratio, step by step |
| `Composition.RequestsAreFills` | ad-decision/src/main/kotlin/com/ottads/addecision/service/DecisionService.kt:107-163 | whatever the workers sent again, the job forgot or a crash repeated: with all rows published and all windows fired, windowed plus late requests are the committed rows with fill = true plus those both counted and late plus those counted again; equal iff there are none |
| `Composition.ServedIsRealtime` | redis-writer/writer.py:71-95 | the sum of each field that Redis serves for a range is that of the rows the job emitted, whatever the repeats and their order |
| `Composition.FiledUnderName` | redis-writer/writer.py:54-57 | the writer files the message of a row under the row's campaign and minute |
| `Composition.LineIsResidual` | spark/reconcile.py:73-106 | what the report fetches from the summary, the minute or daily table and late_dropped makes each line's residual the residual of its campaign, absent campaigns counting 0 |
| `Composition.ResidualExactlyWhen` | spark/reconcile.py:27-31 | after any crashes and expiries: 0 for every campaign and range iff no impression is stray, none was both counted and late, and no surviving read counted one again |
| `Composition.ReportIsExact` | spark/reconcile.py:135-205 | end to end over the writer's state: for a range within 48 hours each line shows minus its campaign's stray impressions, minus those both counted and late, minus those counted again, whatever crashed, expired or was written twice; the four totals are the sums over the campaigns listed of emitted, settled, given-up and late impressions |

## Left out

- Kafka, PostgreSQL, Redis and Flink internals: taken as an append-only log, row locks held to the end of a transaction, keyed upserts with an expiry, first-row de-duplication and watermark-driven windows.
- Idle-source detection: the watermark of the union is an arbitrary sequence of inputs that never takes it back.
- `sql/archive.sql`: the archive is an identity copy of the records; Parquet and file commits are I/O.
- Records without event_id, event_type, campaign_id or event_time: the collector's validator refuses them; the field checks and the topic table are preconditions here.
- Floating point: reals stand for the rate controller's, the budgets' and the amounts' doubles, so nothing is claimed of rounding other than the amount's two decimals.
- Columns that differ from run to run or are only shown: emitted_at, updated_at, computed_at, lookup-joined names, `late_impressions`, `diff_rate` and the wording of `classify`.
- Alerts and `agg:campaigns`: easy members beside the range query.
- The creatives that a campaign refresh replaces: they are only shown.
- Key text such as yyyymmddHHMM: minutes are numbers. Strings are compared by character, without Unicode rules; `isBlank` knows spaces, tabs and line ends only.
- A null `source` sorts as an absent one; the strip and split of the priority list are left out.
- Truncating `event_outbox` under running workers: rows only accumulate. `republished` goes by row id, so ids that start again count as repeats, one way to get the 63 republished beside 60 duplicates in README.md:802-807; without truncation Outbox.BooksBalance makes the two numbers equal.
- Ids that UUID generation makes are assumed fresh; signatures, JSON and ISO-8601 parsing are library code.
- `enrich` and the partition key: they change no count.
- The order in which concurrent publishes of one batch finish: outcomes are folded in list order, and the counts do not depend on it.
- Two replays at once: one replay runs at a time, with any other publishes in between.
- Late delivery in the collector: a message given up on but delivered reaches the log at once rather than later.
- The generator's random behaviour, the dashboard, tracer, player and scripts.
- Recovery.Reachable: the re-read order of the input is the same; Kafka keeps it per partition and the merged order is taken as replayed.
- Recovery.MinuteRowsExactlyWhen: takes as given that copies of an id lie in one window of one campaign and are of one kind, as does every comparison of minute rows with the job that never forgets; without it Recovery.Recovered holds.
- Residual.ResidualIsStray: takes as given that copies of an id agree on topic, type and campaign.
- Columns.MinuteRowIs: takes as given that copies of an id agree on topic, type, campaign, quartile, fill, twin mark and minute, and that no id expires; `Expiry.RunsBeside` compares each column with the job that forgets.
- CampaignCache.CampaignCache.Pick: the interval of a draw is stated for budgets that are not negative; with a negative one the choice is still where the running sum first reaches the draw.
- Composition.ReportIsExact: takes as given that the message handled last of each key is the row of that key, as Kafka keeps them in order per key; campaigns without a name are skipped by the writer and the report alike.
- Settlement.RedeliveryChangesNothing: needs rows tied on event_id, event_time and topic to agree on the columns read; Batch.RerunIsStable shows that this cannot be dropped.
- RateControl.LinearRun: takes any real as a sample so that the linear case is exact; the program counts whole events.
