# Verification of the network toolbox's stateful core

Dafny models of the parts of the toolbox where state, time or ordering matters, with their properties proved for
every input and every run. `dafny verify dfyconfig.toml` checks everything.

- **Ping sessions** (`SessionTables`, `ProbeTask`, `ProbeConsumer`, `SessionSystem`, `SessionStops`). The probe loop,
  its channel of 256, the write-behind consumer with its batch of 50, the session and probe tables, and a system in
  which any number of sessions start, step, stop, crash and are deleted in any interleaving. `ProbeTask` cuts the two tasks at
  their await points; `ProbeConsumer` and `SessionTables` are the same code as methods over mutable state.
- **Timestamps** (`Calendar`, `Rfc3339`, `Rfc3339Reader`). Civil dates from second counts over all integers, their
  printed form with a reader for its columns, and the text order that SQL sorts it by (RFC 3339, sections 5.1, 5.6, 5.7
  and appendix C).
- **Firewall logs** (`LogHook`, `LogProtocol`, `LogView`, `LogRaces`, `LostStreams`). The references of the log view,
  what it shows, the protocol it runs against backend calls that take effect at some moment before they resolve, and
  exactly when a start can lose its stream to a stop meant for an earlier one.
- **Statistics** (`Moments`, `Stats`, `SnapshotView`, `BenchStats`). Welford's update, the jitter estimator of RFC 3550
  (section 6.4.1, appendix A.8), the one-pass summary of stored probes, and interpolated percentiles.
- **Charts** (`Buckets`, `Downsample`, `DownsampleKeeps`, `DownsampleBuckets`). Reducing a probe series to canvas columns.
- **Traffic** (`CounterRates`, `Traffic`, `MikrotikSeries`, `DeviceMonitor`, `DeviceView`). Rates from byte counters, live
  and rebuilt, and the per-firewall monitor state that feeds them.
- **Exports and views** (`ScanCsv`, `CollapseDiff`, `HopTable`, `TraceCompare`, `PageResources`). The scan export with a
  reader for it, the folded backup diff, traceroute tables and their comparison, and the page-load resource table.
  `Ordering` is the stable sort they and the percentiles share.

Assumptions about what lies outside: a backend start of a log stream takes effect, or is rejected, at one moment before
its call resolves; a profile that is streaming rejects a further start, and a failed open reports a terminal error on a
channel that never streamed (`src-tauri/src/opnsense/logs.rs:74-122`); a successful stop ends the profile's stream, and
any stream may end with or without a terminal status. In the backend at hand a stream that started reports its end on every
exit (`src-tauri/src/opnsense/logs.rs:203-208`), and a stop closes one silently exactly if it wins before the reader begins
(`src-tauri/src/opnsense/logs.rs:189-194`); that is where the unreported close of `LostStreams.LateStopClosesTheNewStream`
comes from. That a stop of a running stream is refused is an assumption about
the call layer between view and backend, whose own stop only refuses a missing stream
(`src-tauri/src/opnsense/logs.rs:156-170`). A database transaction commits whole or not at all. The clock, parsed
timestamps and probe results are inputs.

Where code and documentation disagree, the code is modelled:

- `src-tauri/src/session.rs:1` and `src-tauri/src/session.rs:379-402` speak of one active session and of a lock held for
  the whole setup. `active` is a map, the lock is taken only to insert, and several sessions may run.
- `src-tauri/src/session.rs:72` says a stopped session's probes were all persisted. They were exactly when no flush
  failed (`SessionSystem.CleanStopAgrees`); `SessionStops.StopAnnouncesUnsavedProbe` is a run where one failed.
- Only one stop per id can succeed as long as its row stays. Without a deletion another stop can succeed exactly while
  the session runs, is being stopped, or has an id from 1 on and no row (`SessionStops.AnotherStopCanSucceed`). The ids
  are plain `INTEGER PRIMARY KEY`s: a fresh row gets one more than the largest, so a deleted id comes up again once the
  rows above it are gone, and can be stopped again (`SessionStops.DeletedIdStopsTwice`).
- Printed timestamps sort as text in time order exactly from year -1 to year 9999 (`Rfc3339.TextOrderWindow`); they are
  RFC 3339 timestamps exactly from year 0000 to 9999 (`Rfc3339Reader.GrammaticalExactlyForFourDigitYears`).
- A start that lost its race stops its profile when it returns, without the stop being recorded as pending
  (`src/hooks/useOpnsenseLogs.ts:136-139`). If the profile was started again in the meantime, that late stop can close
  the new stream, and if the stream does not report it the view goes on showing a stream that no longer runs
  (`LostStreams.LateStopClosesTheNewStream`). This can happen to a start exactly if its profile is endangered when it is
  made: some stop of the profile is under way, or can get under way, that neither the stream running then nor the wait
  for the recorded stop uses up (`LostStreams.LostExactlyIfEndangered`). Not starting a profile while an earlier start
  of it, or any stop of it but the recorded one, is unresolved rules it out (`LogRaces.GuardedRunsAgree`).
- Once no call is pending, a running stream is held by the view exactly if no stop of its profile was refused after the
  view had given it up (`LogProtocol.OnlyTheActiveStreamSurvives`); the refusal is swallowed at
  `src/hooks/useOpnsenseLogs.ts:70` (`LogProtocol.RefusedStopLeavesAStream`).
- `stats.rs` and `snapshot.ts` estimate jitter differently on purpose (first difference divided by 16 or not; a loss
  breaks the chain or not). They are proved to agree on everything else (`SnapshotView.LiveAndStoredAgree`).

## Model

| member | source | states |
|---|---|---|
| Calendar.DateOfEveryDay | src-tauri/src/db.rs:1890-1902 | Every day number, negative ones included, becomes a date that exists in the proleptic Gregorian calendar, and counting days to that date gives the number back. |
| Calendar.DayOfEveryDate | src-tauri/src/db.rs:1890-1902 | Every existing date is the date of its own day number, so the conversion is a bijection. |
| Calendar.CalendarAdvancesDayByDay | src-tauri/src/db.rs:1893-1902 | One day more is the next calendar date, month ends, leap days and year ends included; with the epoch this determines the conversion. |
| Calendar.EpochIsDayZero | src-tauri/src/db.rs:1885-1902 | Day 0 is 1970-01-01. |
| Calendar.EarlierDateCountsLess | src-tauri/src/db.rs:1893-1902 | The count of days respects the order of dates. |
| Calendar.StampOfEverySecond | src-tauri/src/db.rs:1890-1908 | Every second count becomes a valid date and time of day that stands for exactly that second. |
| Calendar.SecondOfEveryStamp | src-tauri/src/db.rs:1890-1908 | Every valid date and time of day is reached, by exactly its own second count. |
| Calendar.StampOrderIsTimeOrder | src-tauri/src/db.rs:1890-1908 | Field-wise order of timestamps is the order of the seconds. |
| Rfc3339.PaddedOrder | src-tauri/src/db.rs:1903-1908 | Zero-padded numbers of one width are equal, or ordered as text, exactly as the numbers are. |
| Rfc3339.StampTextOrder | src-tauri/src/db.rs:1903-1908 | For years -1 to 9999 the printed form orders as text exactly as its fields do. |
| Rfc3339.TextOrderIsTimeOrder | src-tauri/src/db.rs:1885-1909 | For instants in years -1 to 9999, so for all of 0000 to 9999, text order of the printed timestamps is chronological order, in both directions. |
| Rfc3339.InstantsPrintInOrder | src-tauri/src/db.rs:1886-1889 | Sub-second instants on either side of the epoch never print out of order, and print strictly in order when two seconds apart. |
| Rfc3339.RoundsTowardEpoch | src-tauri/src/db.rs:1886-1889 | The whole seconds of an instant round toward the epoch on both sides of it. |
| Rfc3339.OrderByTimestamp | src-tauri/src/db.rs:1581 | A column of printed timestamps is sorted as text exactly when the rows are in time order. |
| Rfc3339Reader.GrammaticalExactlyForFourDigitYears | src-tauri/src/db.rs:1903-1908 | The output is an RFC 3339 date-time, the ranges of its month, day, hour, minute and second included, if and only if the year is between 0000 and 9999. |
| Rfc3339Reader.TimestampReadsBack | src-tauri/src/db.rs:1890-1908 | For years -999 to 9999, reading the digits in the columns of a printed timestamp gives back its date and time of day, field by field, and the sign stands exactly for a negative year. |
| Rfc3339Reader.SecondReadsBack | src-tauri/src/db.rs:1885-1909 | For the same years the second that was printed can be computed from the text. |
| Rfc3339.TextOrderWindow | src-tauri/src/db.rs:1885-1909 | For any span around the epoch, text order is time order throughout it if and only if it starts no earlier than year -1 and ends no later than year 9999. |
| Rfc3339.TextOrderBreaksInYear10000 | src-tauri/src/db.rs:1903-1908 | The first second of year 10000, right behind the last sortable one, sorts before 1970 as text. |
| Rfc3339.TextOrderBreaksBeforeYearMinus1 | src-tauri/src/db.rs:1903-1908 | The first second of year -1, the first sortable one, sorts before the last second of year -2 as text. |
| SessionTables.BatchStaysInItsSession | src-tauri/src/db.rs:726-746 | A committed batch appends its rows to its own session and leaves the rows of all others as they were. |
| SessionTables.CascadeTouchesOneSession | src-tauri/src/db.rs:806-812 | Deleting a session removes all of its probe rows and none of another's. |
| SessionTables.OrderBySeqIsInsertionOrder | src-tauri/src/db.rs:786-803 | With ascending sequence numbers, any result of the ordered query is the rows in insertion order. |
| SessionTables.Database.CreateSession | src-tauri/src/db.rs:544-562 | The new id exceeds every present one by the least possible amount, the row is unfinished, nothing else changes. |
| SessionTables.Database.InsertProbesBatch | src-tauri/src/db.rs:726-746 | All rows of a batch arrive in order or none does; a missing session, a failing insert or a failing commit is an error. |
| SessionTables.Database.FinishSession | src-tauri/src/db.rs:716-723 | Stamps exactly the one row if it is there; a missing row is no error. |
| SessionTables.Database.DeleteSession | src-tauri/src/db.rs:806-812 | The row goes, and with it exactly its own probes. |
| SessionTables.Database.ListSessions | src-tauri/src/db.rs:749-783 | Every session is listed once, newest id first, with its ending and the probe count, loss count and loss percentage of its own rows, zero per cent without rows. |
| SessionTables.Database.Aggregates | src-tauri/src/db.rs:753-758 | The probe and loss counts of a session are those of its own rows. |
| ProbeTask.ThreeViewsAgree | src-tauri/src/session.rs:640-666 | Statistics outcome, table row and live event tell the probe's own result, its round trip in milliseconds, its number and its time; the row alone cuts a number beyond 64 signed bits. |
| ProbeTask.TakeAccounted | src-tauri/src/session.rs:690-693 | Receiving a probe keeps every emitted probe in exactly one flushed batch or the current one, in order. |
| ProbeTask.FinishFlushAccounted | src-tauri/src/session.rs:707-722 | A flush keeps that accounting, adds one error status if and only if it failed, and stores the whole batch or nothing of it. |
| ProbeTask.NothingFailed | src-tauri/src/session.rs:705-722 | As many rows are stored as were flushed if and only if no flush failed, and then they are the same rows. |
| ProbeTask.LossRowsOfEvents | src-tauri/src/session.rs:640-666 | Stored loss flags and emitted lost events agree in number. |
| ProbeTask.StepKeepsInv | src-tauri/src/session.rs:671-722 | Every step of the loop and the consumer between two await points keeps the session invariant (channel is the unreceived suffix, batch below 50 while selecting, at most one probe sent after stop), and only a commit adds rows. |
| ProbeTask.KillKeepsInv | src-tauri/src/session.rs:622-633 | Aborting both tasks at any await point keeps it too and touches no stored row. |
| ProbeTask.EmittedSplits | src-tauri/src/session.rs:6-7 | Emitted probes are the stored ones, those of failed batches, and at most 50 unflushed ones. |
| ProbeTask.TickFlushesEverything | src-tauri/src/session.rs:698-700 | A tick on an empty batch changes nothing; on any other it flushes the whole batch, after which nothing emitted is held back. |
| ProbeTask.FlushesAreDue | src-tauri/src/session.rs:682-700 | A flush begins if and only if there is something to flush and a tick, the end of the channel or the probe that fills the batch to 50 asks for it; short of that a received probe only joins the batch. |
| ProbeTask.SendingNeedsRoom | src-tauri/src/engine/mod.rs:154-163 | The loop sends while the consumer lives and fewer than 256 probes wait, numbers what it sends next in line, and puts it last. |
| ProbeConsumer.Consumer.FlushBatch | src-tauri/src/session.rs:705-722 | Over the shared database: an empty batch does nothing, a failed insert drops the batch and reports it, other sessions' rows stay. |
| ProbeConsumer.Consumer.OnProbe | src-tauri/src/session.rs:690-696 | One probe feeds the statistics once, is emitted once and joins the batch, without any write below 50; the fiftieth flushes the batch; the accounting holds afterwards. |
| ProbeConsumer.Consumer.TakeTurn | src-tauri/src/session.rs:679-702 | A tick leaves the batch empty and feeds nothing; a received probe joins the batch, which its fiftieth empties. |
| ProbeConsumer.Consumer.ConsumeProbes | src-tauri/src/session.rs:671-703 | After the select loop ends every received probe was emitted in order, the batch is empty, and without a reported failure the session's rows are exactly the emitted probes. |
| SessionSystem.SessionsAreIsolated | src-tauri/src/session.rs:954-961 | An action about one session changes no other session's rows, task, ending or activity. |
| SessionSystem.StopNeedsAnActiveSession | src-tauri/src/session.rs:540-548 | A stop of an id that is not active is answered as not running and changes nothing else; an active session leaves the active ones, its stop raised, and nothing else of it moves. |
| SessionSystem.RunKeepsInv | src-tauri/src/session.rs:403-634 | Every run of starts, task steps, stops, crashes and deletions keeps the system invariant: each session's table rows are exactly what its task has persisted. |
| SessionSystem.EmittedProbesAreAccountedFor | src-tauri/src/session.rs:671-722 | In every run, emitted probes are flushed batches of 1 to 50 followed by the current batch, the table holds exactly the successful ones, and there is one error status per failed one. |
| SessionSystem.FlushedProbesSurvive | src-tauri/src/session.rs:6-7 | Stored rows stay a prefix of the session's rows through everything except its deletion. |
| SessionSystem.DeadSessionsStayAsTheyAre | src-tauri/src/session.rs:622-633 | Once both tasks are gone and no stop is under way, nothing that follows changes the session's rows or ending. |
| SessionSystem.CrashLosesAtMostOneBatch | src-tauri/src/session.rs:6-7 | A crash at any await point of any run loses at most the 50 probes of the current batch, no stored row, and the session is never stamped as ended, whatever comes later. |
| SessionSystem.CleanStopAgrees | src-tauri/src/session.rs:539-569 | A stop whose consumer drained the channel announces every probe the loop sent; the table agrees with the announced probe count if and only if no flush failed, and then also in its rows and loss count; the ending is stamped. |
| SessionSystem.LoadedProbesAreTheEmittedOnes | src-tauri/src/db.rs:786-803 | After such a stop without failed flushes, loading by sequence number returns the emitted probes in emission order. |
| SessionSystem.OneStopPerCreatedRow | src-tauri/src/session.rs:540-546 | Successful stops of an id number at most one more than the deletions of its row. |
| SessionSystem.OnlyOneStopSucceeds | src-tauri/src/session.rs:540-546 | From the start of a process, without deletion of the row, at most one stop of an id succeeds. |
| SessionStops.AnotherStopCanSucceed | src-tauri/src/session.rs:539-569 | In every reachable system, a further successful stop of an id can follow without its row being deleted if and only if the session is running, is being stopped, or has an id from 1 on without a row, which the database can be brought to hand out. |
| SessionStops.StopDrains | src-tauri/src/session.rs:548-552 | A stop call can always be brought to the point where both tasks have ended, whatever they were doing. |
| SessionStops.IdCanComeUp | src-tauri/src/db.rs:544-562 | Every id from 1 on without a row can be made the one the database hands out next: the rows above it stopped and deleted, the ids below it started, its own stops untouched. |
| SessionStops.AboutStaysElsewhere | src-tauri/src/session.rs:954-961 | Any run about one session leaves the presence of every other row and the number of its successful stops as they were. |
| SessionStops.DeletedIdStopsTwice | src-tauri/migrations/0001_init.sql:3 | From every system and for every id from 1 on without a row, there is a run, ids being handed out as one more than the largest, in which the id is stopped successfully, deleted, and stopped successfully again. |
| SessionStops.StopAnnouncesUnsavedProbe | src-tauri/src/session.rs:72 | From every system and for every id from 1 on without a row, there is a run whose last stop succeeds and announces one probe while the table holds none of the session. |
| Moments.WelfordStep | src-tauri/src/stats.rs:114-117 | The one-pass update turns the mean and squared deviations of a sample into those of the sample with one more value. |
| Stats.StatsEngine.Feed | src-tauri/src/stats.rs:83-106 | After any outcome the running fields are what a second pass over the whole history would compute, and the history grew by one numbered record. |
| Stats.StatsEngine.FeedRtt | src-tauri/src/stats.rs:109-129 | A round trip keeps count, mean, squared deviations, extremes and jitter equal to their two-pass definitions. |
| Stats.StatsEngine.FeedLoss | src-tauri/src/stats.rs:93-98 | A loss leaves the moments alone, adds to the losses, and ends the chain of adjacent successes. |
| Stats.StatsEngine.TakeSnapshot | src-tauri/src/stats.rs:132-151 | The snapshot is the count, loss fraction, true minimum, maximum, mean and variance of the outcomes fed, and the RFC 3550 estimate over their adjacent successful pairs. |
| Stats.SuccessesAndLosses | src-tauri/src/stats.rs:83-99 | Successes and losses add up to the count. |
| Stats.JitterExists | src-tauri/src/stats.rs:122-127 | There is a jitter estimate if and only if two successful probes were neighbours. |
| Stats.JitterWithinSpread | src-tauri/src/stats.rs:122-127 | The estimate lies between 0 and the difference of the largest and smallest round trip. |
| Stats.RttsAreMilliseconds | src-tauri/src/stats.rs:88-91 | Each success has its place among the round trips, after the earlier successes, at 1000 times its seconds. |
| Stats.DeltasAreOfNeighbours | src-tauri/src/stats.rs:93-127 | Each two neighbouring successes, and nothing else, give the estimator one difference: the distance of their milliseconds, in order. |
| Stats.JitterKeepsFifteenSixteenths | src-tauri/src/stats.rs:122-127 | A new difference d turns the estimate j into j' with 16 j' = 15 j + d, from zero. |
| Stats.SnapshotUndivided | src-tauri/src/stats.rs:132-151 | The losses are counted; loss fraction times count is the losses, average times successes the sum of the round trips, variance times successes their squared deviations from the average; average and variance are there if and only if a probe succeeded. |
| Stats.ExtremesAreReached | src-tauri/src/stats.rs:119-120 | Minimum and maximum are two of the round trips, in milliseconds, and bound them all. |
| SnapshotView.ComputeSnapshot | src/lib/snapshot.ts:3-49 | The one-pass summary is the count, losses, extremes, mean, variance and running jitter of the probe list by their two-pass definitions. |
| SnapshotView.UpdateJitter | src/lib/snapshot.ts:28-32 | The pushed estimate is the fold over successive differences, seeded with the first. |
| SnapshotView.SamplesAreTheAnswered | src/lib/snapshot.ts:14-19 | Exactly the rows marked lost or without a round trip are losses; every other one is a sample, in order. |
| SnapshotView.DeltasAreOfNeighbours | src/lib/snapshot.ts:28-32 | Each sample after the first gives one difference, its distance from the sample before it, however many losses lie between. |
| SnapshotView.JitterStartsFromTheFirst | src/lib/snapshot.ts:28-32 | The first difference is the first estimate; a further difference d turns j into j' with 16 j' = 15 j + d. |
| SnapshotView.LiveAndStoredAgree | src/lib/snapshot.ts:14-37 | Over the same probes the live snapshot and the stored summary agree on everything but jitter, the mean lies between the extremes and the variance is not negative. |
| BenchStats.PercentileMonotone | src-tauri/src/bench_stats.rs:45-60 | On sorted samples a larger p never gives a smaller value, across segment boundaries and outside 0..1. |
| BenchStats.PercentileHitsSamples | src-tauri/src/bench_stats.rs:52-57 | At p = j / (n - 1) the result is sample j itself. |
| BenchStats.PercentileSplits | src-tauri/src/bench_stats.rs:45-60 | Samples up to rank p (n - 1) are at most the percentile and samples from that rank on are at least it. |
| BenchStats.PercentileInterpolates | src-tauri/src/bench_stats.rs:45-60 | Between the ranks k and k + 1 the percentile exceeds sample k by (p (n - 1) - k) times the step from sample k to sample k + 1; below 0 it is the first sample, above 1 the last. |
| BenchStats.SummaryOrder | src-tauri/src/bench_stats.rs:64-96 | min <= p50 <= p90 <= p95 <= p99 <= max, the mean lies between min and max, the variance is not negative. |
| BenchStats.SummaryPercentiles | src-tauri/src/bench_stats.rs:86-95 | In any ascending arrangement of the samples, each of p50, p90, p95 and p99 separates the places up to its rank from the rest and lies on the line between the two samples around it. |
| BenchStats.SummaryDescribesSamples | src-tauri/src/bench_stats.rs:69-84 | Count, mean and variance are those of the unsorted samples by definition; min and max are attained bounds of them. |
| BenchStats.SummaryIgnoresOrder | src-tauri/src/bench_stats.rs:64-96 | Permuting the samples does not change the summary. |
| BenchStats.AscendingIsUnique | src-tauri/src/bench_stats.rs:69-70 | Any two ascending arrangements of the same samples are equal, so the choice of sort does not matter. |
| Buckets.Width | src/lib/downsample.ts:126-128 | A bucket never ends before it starts; with at least as many items as buckets none is empty, with at most as many none holds two. |
| Buckets.OccupiedTotal | src/lib/downsample.ts:125-128 | Exactly min(n, k) buckets hold anything. |
| Buckets.OneBucket | src/lib/downsample.ts:126-130 | No item is in two buckets. |
| Downsample.AttachJitter | src/lib/downsample.ts:28-44 | Each successful probe carries the estimate that the summary of the probes up to it would give; lost probes carry none. |
| Downsample.LastJitterIsSummaryJitter | src/lib/downsample.ts:28-44 | The last estimate in the series is the jitter of the summary over the whole series. |
| Downsample.ExtremeIsFirst | src/lib/downsample.ts:71-76 | The tracked extreme is the first successful probe that no other beats, and is absent exactly when none succeeded. |
| Downsample.AggregateBucket | src/lib/downsample.ts:46-92 | The loop finds a bucket's count, losses, first loss, first extremes, mean jitter and last position. |
| Downsample.GlobalExtreme | src/lib/downsample.ts:103-119 | The pass over all probes finds the first global extreme. |
| Downsample.Downsample | src/lib/downsample.ts:94-188 | The three output series are the per-bucket parts of the non-empty buckets in order; the global extremes are the least and the greatest round trip of the successful probes of the input, and missing if there is none. |
| DownsampleKeeps.ExtremesAreKept | src/lib/downsample.ts:145-183 | For every width and loss pattern, if a probe succeeded, the line contains the first global minimum point and the first global maximum point. |
| DownsampleKeeps.EveryPointIsReal | src/lib/downsample.ts:137-184 | Every drawn value is a successful probe of the input at its own position, and every gap stands at a lost one. |
| DownsampleKeeps.DrawnAtThePeak | src/lib/downsample.ts:133-135 | The loss and jitter points of a bucket stand at its first greatest round trip, or at its first probe if all were lost. |
| Downsample.BucketCount | src/lib/downsample.ts:99 | One bucket per whole unit of canvas width, and at least one for any width. |
| DownsampleKeeps.GapsShowLosses | src/lib/downsample.ts:137-184 | A bucket puts a gap into the line if and only if it holds a loss and not both global extremes. |
| DownsampleKeeps.BucketsTileTheInput | src/lib/downsample.ts:125-135 | min(n, k) loss points whose totals add up to n and whose losses add up to the lost probes; at most twice as many line points. |
| DownsampleKeeps.SeriesAscends | src/lib/downsample.ts:133-135 | Loss and jitter points never step back along the x axis if the probes do not. |
| DownsampleBuckets.LineDrawsTheBucket | src/lib/downsample.ts:125-184 | Each bucket with a success has its own stretch of the line: without a loss its first least and its first greatest round trip, least first, as one point if they coincide; with a loss, a gap at its first loss beside the greatest, or beside the least if that is the global one, unless both extremes are global and drawn. |
| DownsampleBuckets.LineDrawsTheLostBucket | src/lib/downsample.ts:137-140 | A bucket without a success is one gap at its last probe. |
| DownsampleBuckets.BucketIsCounted | src/lib/downsample.ts:53-89 | Each bucket's loss point counts its lost probes and its probes; its jitter point, times the number of estimates in the bucket, is their sum, and is missing if and only if there is none. |
| DownsampleBuckets.JittersAreTheEstimates | src/lib/downsample.ts:66-69 | What is averaged is the estimates of the bucket's successful probes, each once and in order. |
| LogHook.CappingCommutes | src/hooks/useOpnsenseLogs.ts:106-108 | Capping at every event keeps exactly the newest 500 of all events. |
| LogHook.EventKeepsBuffers | src/hooks/useOpnsenseLogs.ts:103-111 | An event keeps the visible buffer equal to the selected profile's saved one, within the cap and of that profile. |
| LogHook.OpnsenseLogs.Select | src/hooks/useOpnsenseLogs.ts:78-89 | A changed selection drops the held stream, shows the saved buffer and names the profile to stop; the same selection does nothing. |
| LogHook.OpnsenseLogs.Start | src/hooks/useOpnsenseLogs.ts:91-101 | Ignored exactly while a stream is held; otherwise draws a new generation and says which pending stop to wait for. |
| LogHook.OpnsenseLogs.OnEvent | src/hooks/useOpnsenseLogs.ts:103-111 | An event of another generation or profile changes nothing; others are prepended within the cap. |
| LogHook.OpnsenseLogs.OnStatus | src/hooks/useOpnsenseLogs.ts:112-134 | Only a terminal status of the current generation gives the stream up. |
| LogHook.OpnsenseLogs.OnRejected | src/hooks/useOpnsenseLogs.ts:140-146 | A rejected start gives the stream up and shows its error if it is still the current one, and otherwise changes nothing; what is shown stays. |
| LogHook.OpnsenseLogs.StopStream | src/hooks/useOpnsenseLogs.ts:149-156 | The view keeps its entries, holds no stream, moves past every earlier handler's generation, and records the stop as pending. |
| LogHook.OpnsenseLogs.OnUnmount | src/hooks/useOpnsenseLogs.ts:60-67 | The held stream is asked to stop without the stop being recorded as pending. |
| LogHook.OpnsenseLogs.OnStopSettled | src/hooks/useOpnsenseLogs.ts:69-76 | A settled stop is forgotten only if no later stop of its profile took its place. |
| LogHook.OpnsenseLogs.ClearEntries | src/hooks/useOpnsenseLogs.ts:158-162 | The selected profile's buffer is empty, every other profile's is untouched. |
| LogProtocol.RunKeepsInv | src/hooks/useOpnsenseLogs.ts:60-162 | Every interleaving of user actions, unresolved calls, backend moments and messages, terminal errors of streams that never opened included, keeps the protocol invariant: each running stream is held, about to be stopped, opened by a start that will see it lost its race, or survived a refused stop. |
| LogProtocol.OnlyTheActiveStreamSurvives | src/hooks/useOpnsenseLogs.ts:136-139 | In every run, once no call is pending, a running stream is the active profile's current one if and only if no stop of its profile was refused while the view no longer held it. |
| LogProtocol.HeldStreamIsRunning | src/hooks/useOpnsenseLogs.ts:91-147 | With nothing pending or undelivered, the held stream is running unless it ended on its own, or was closed by a stop, without reporting it; which of the two is recorded. |
| LogRaces.QuietAgreement | src/hooks/useOpnsenseLogs.ts:69-156 | In any run without refusals, streams ending on their own or endangered starts, once no call is pending the backend runs exactly the held stream, whatever streams report. |
| LogRaces.GuardedRunsAgree | src/hooks/useOpnsenseLogs.ts:91-102 | The same for every run that starts a profile only while no earlier start of it is unresolved and every unresolved stop of it is the recorded one. |
| LogRaces.ActionStaysSafe | src/hooks/useOpnsenseLogs.ts:69-156 | Every step keeps the held start safe: only the lost stream in its way, or the stop it waits for, is left to be closed. |
| LogRaces.ClosingStaysSafe | src/hooks/useOpnsenseLogs.ts:136-139 | No stop that reaches the backend closes a safely held stream. |
| LostStreams.LostExactlyIfEndangered | src/hooks/useOpnsenseLogs.ts:91-147 | At any point of any run, a start made then can end with everything returned, the view holding its stream and the stream closed unreported, if and only if the profile is endangered at that point. |
| LostStreams.LateStopClosesTheNewStream | src/hooks/useOpnsenseLogs.ts:136-139 | A run without refusals or streams ending on their own after which nothing is pending, the view shows a running stream and the backend runs none. |
| LogProtocol.VisibleEntries | src/hooks/useOpnsenseLogs.ts:78-111 | In every run the visible entries are the selected profile's newest 500 accepted events since it was cleared, and equal its saved buffer. |
| LogView.RunningIsTheLastWord | src/hooks/useOpnsenseLogs.ts:78-156 | In every run the view shows running if and only if the last action with a say in it says so: an accepted start or a started status of the current generation, against a stop, a changed selection, a rejected current start or a terminal status of the current generation. |
| LogView.HoldingShowsRunning | src/hooks/useOpnsenseLogs.ts:91-156 | In every run a view that holds a stream shows running. |
| LogView.RejectionStopsRunning | src/hooks/useOpnsenseLogs.ts:140-146 | A rejected current start leaves no stream held, nothing running and its error shown. |
| LogView.ErrorIsTheLastWord | src/hooks/useOpnsenseLogs.ts:78-146 | In every run the error shown is the message of the last warning or error status of the then current generation, or of the rejection of the then current start, unless a start, a changed selection or a started status came after. |
| LogView.EventComesOutOnTop | src/hooks/useOpnsenseLogs.ts:103-111 | An event of the current generation and its profile becomes the topmost entry; only the oldest of 500 makes room, and the saved buffer is the visible one. |
| LogView.RestartWaitsForTheStop | src/hooks/useOpnsenseLogs.ts:69-102 | A profile started again right after it was left waits for the very stop that leaving it asked for. |
| LogView.RecordedStopsAreUnresolved | src/hooks/useOpnsenseLogs.ts:69-76 | In every run each recorded stop is an unresolved one of its own profile, so no start waits for a stop that returned. |
| LogProtocol.LeavingMovesOn | src/hooks/useOpnsenseLogs.ts:117-156 | Stop, a change of profile, unmount and a terminal status leave the current generation and its stream behind, and all but the unmount stop showing as running. |
| LogProtocol.LateMessagesChangeNothing | src/hooks/useOpnsenseLogs.ts:104-113 | After that, whatever else happens, no message of a generation left behind changes the view. |
| LogProtocol.RefusedStopLeavesAStream | src/hooks/useOpnsenseLogs.ts:69-76 | A run with a refused stop after which nothing is pending and a stream runs that the view does not hold. |
| CounterRates.RateMeansBytes | src/lib/mikrotikSeries.ts:101-114 | A rate is there if and only if time advanced and the counter was readable twice without going back; it is not negative, and times the elapsed milliseconds it is 8000 times the bytes counted. |
| CounterRates.BytesAreConserved | src/lib/opnsenseTraffic.ts:115-118 | Over a stretch of readings without a missing rate, rate times elapsed seconds over eight adds up to the last counter minus the first. |
| CounterRates.TailAppend | src/lib/opnsenseTraffic.ts:155-171 | Capping after each push keeps the same suffix as capping once at the end. |
| Traffic.AppendSnapshot | src/lib/opnsenseTraffic.ts:120-171 | The loop over the selected sources gives each its next rate and baseline and shifts all series by the same overflow. |
| Traffic.ReachableHistories | src/lib/opnsenseTraffic.ts:74-171 | Every history reachable by toggles and appends has distinct sources, rates for exactly them, baselines for some of them, strictly ascending times within the cap, series as long as the times, and no negative rate. |
| Traffic.ToggleTwiceRestores | src/lib/opnsenseTraffic.ts:74-113 | Selecting an unselected source and deselecting it restores any reachable history. |
| Traffic.CountersReadTheirEntry | src/lib/opnsenseTraffic.ts:43-72 | An interface is read from the interfaces, a peer from the first WireGuard interface of its name, a session from the OpenVPN sessions, each from the first entry of its name with received and sent kept apart; there are no counters if and only if that section is missing or lists no such entry. |
| Traffic.FindReadsTheFirst | src/lib/opnsenseTraffic.ts:43-72 | Within a list, the counters are those of the first entry of the name, and missing if and only if no entry has it. |
| Traffic.ValidCounter | src/lib/opnsenseTraffic.ts:37-41 | A counter is taken if and only if it is an integer between 0 and the largest a double counts exactly. |
| Traffic.SelectingStartsFromBaseline | src/lib/opnsenseTraffic.ts:92-112 | A newly selected source shows nothing yet, starts from the baseline in both directions of traffic if that has a time, and leaves every other source's series and baseline alone. |
| Traffic.DeselectingForgetsOneSource | src/lib/opnsenseTraffic.ts:79-91 | Deselecting removes that source from its place with its series and baseline, keeps every other source's, and drops the times only with the last one. |
| Traffic.CappedHistoriesAreSuffixes | src/lib/opnsenseTraffic.ts:153-171 | After any toggles and appends each capped series is the suffix of the one that would have been kept without a cap. |
| Traffic.AppendShowsRate | src/lib/opnsenseTraffic.ts:131-151 | The newest displayed rate is the one between the source's previous reading and that of the entry the snapshot lists for it, so it is null for a missing or reset counter; the newest time is the snapshot's, in seconds. |
| Traffic.LaterSnapshotsAreAppended | src/lib/opnsenseTraffic.ts:124-127 | A snapshot changes a history if and only if something is selected and its time can be read and is later than the newest. |
| Traffic.AppendDropsOnlyTheOldest | src/lib/opnsenseTraffic.ts:153-171 | Appending keeps all older times and rates, except that the oldest of 720 makes room. |
| Traffic.ShownRatesConserveBytes | src/lib/opnsenseTraffic.ts:115-151 | Over consecutive accepted snapshots that all show a rate, the displayed rates times their elapsed seconds account for exactly the bytes since the reading before them. |
| MikrotikSeries.RememberCounters | src/lib/mikrotikSeries.ts:141-154 | Remembers each listed name with the counters of its last entry, and no other name. |
| MikrotikSeries.PushRatePoint | src/lib/mikrotikSeries.ts:54-72 | Each series gains the snapshot's points of its name and keeps the last 720; other series are untouched. |
| MikrotikSeries.BuildHistory | src/lib/mikrotikSeries.ts:156-190 | Each interface's series is the last 720 of the points of all snapshots listing it, in order; for an interface listed once a snapshot the point of snapshot i has its time and, received and sent apart, the rates from the counters of snapshot i - 1 to those of snapshot i, none for the first; sections show the newest reported value. |
| MikrotikSeries.RateNeedsThePrecedingSnapshot | src/lib/mikrotikSeries.ts:116-139 | A rebuilt rate is there if and only if the snapshot right before listed the interface with a readable counter that is no larger, at a readable earlier time. |
| MikrotikSeries.RebuiltRatesConserveBytes | src/lib/mikrotikSeries.ts:101-154 | Over any stretch of snapshots that all show a rate, the rates account for exactly the bytes between the readings at its ends. |
| MikrotikSeries.SeriesAccountsForBytes | src/lib/mikrotikSeries.ts:54-72 | Over any stretch of a displayed series in which every point has a rate, each direction accounts for exactly the bytes of its own counter between the snapshots at the ends. |
| MikrotikSeries.EveryListingHasItsPoint | src/lib/mikrotikSeries.ts:61-70 | However often a snapshot lists a name, each listing has its point in order, with the snapshot's time and the rates the rebuilt snapshot shows for that listing. |
| MikrotikSeries.RebuiltChangesOnlyRates | src/lib/mikrotikSeries.ts:116-139 | Rebuilding a snapshot changes nothing but the two rates of its interfaces. |
| MikrotikSeries.SectionsAreTheNewest | src/lib/mikrotikSeries.ts:175-177 | VLANs, bridge VLANs and sensors are each those of the newest snapshot that carries them. |
| DeviceMonitor.ViewShowsTheLastGood | src/hooks/useOpnsense.ts:109-125 | A section view shows the newest good refresh and its time, and is stale if and only if a failed refresh followed it. |
| DeviceMonitor.FailuresAreReported | src/hooks/useOpnsense.ts:109-125 | A view carries an error exactly as long as the newest refresh failed, and shows nothing before the first good one. |
| DeviceMonitor.ActionsAreLocal | src/hooks/useOpnsense.ts:225-358 | An action about one firewall leaves the devices and due frames of all others alone. |
| DeviceMonitor.RunKeepsInv | src/hooks/useOpnsense.ts:225-358 | In every run each device's views are built from exactly what its own channel delivered, minus what is pending, and its traffic history is well formed. |
| DeviceMonitor.LateEventsChangeNothing | src/hooks/useOpnsense.ts:312-358 | Once a device was replaced or removed, no later run lets an event of its channel or the end of one of its calls change anything. |
| DeviceMonitor.NothingIsStranded | src/hooks/useOpnsense.ts:232-246 | Pending snapshots always have an animation frame due, and that frame brings the views up to everything delivered. |
| DeviceMonitor.ShownDataIsTheLastGood | src/hooks/useOpnsense.ts:109-131 | With nothing pending, each of the system, vpn and rules views shows the newest good data its channel ever delivered for it, stale if and only if a newer refresh failed, and the newest refresh's error while that failed. |
| DeviceView.StatusIsTheLastWord | src/hooks/useOpnsense.ts:201-334 | In every run a device's running flag, attachment and error are the last word of its start, of that start's call and of its own status channel, each event by what it says; what is attached is running. |
| DeviceView.StartBeginsAnew | src/hooks/useOpnsense.ts:95-107 | A start does nothing while an attached device runs; otherwise the device begins running, attached, without error, data, pending snapshots or selected sources. |
| DeviceView.DevicesComeAndGo | src/hooks/useOpnsense.ts:201-412 | A failed start, a settled stop and a deleted profile remove the device; a live monitor found without a device gets a running, detached one, and otherwise changes nothing. |
| DeviceView.TrafficSeesReports | src/hooks/useOpnsense.ts:225-230 | The history reads a source from the section it belongs to, if that refresh is good, and from no other. |
| DeviceView.DeliveredTrafficIsAppended | src/hooks/useOpnsense.ts:225-246 | In every run a device's traffic history is made by toggles and by appending every snapshot that its own channel delivered and that is no longer pending, each once and in order. |
| DeviceView.ToggleTurnsTheSource | src/hooks/useOpnsense.ts:275-290 | Toggling turns a source of a monitored device on or off and touches neither its views nor its snapshots. |
| DeviceView.StaleSectionsGiveNoBaseline | src/hooks/useOpnsense.ts:279-286 | While its section is stale or was never good, a new source starts without a baseline. |
| DeviceView.SelectionStartsFromShownCounters | src/hooks/useOpnsense.ts:275-290 | Right after a good refresh was shown, a source selected from it starts from the time of that refresh and the counters of the entry it lists. |
| DeviceMonitor.DeviceRefs.HandleSnapshot | src/hooks/useOpnsense.ts:312-319 | Queues a snapshot for the current device only, and asks for a frame unless one is due. |
| DeviceMonitor.DeviceRefs.Flush | src/hooks/useOpnsense.ts:232-246 | Applies the pending snapshots in order and clears them. |
| DeviceMonitor.DeviceRefs.HandleStatus | src/hooks/useOpnsense.ts:248-273 | Moves only the status fields of the current device. |
| DeviceMonitor.DeviceRefs.ToggleTrafficSource | src/hooks/useOpnsense.ts:275-290 | The method is the toggle step of the state machine: the source of a monitored device, from a baseline of the fresh sections only. |
| DeviceMonitor.DeviceRefs.StartSettled | src/hooks/useOpnsense.ts:323-336 | The end of a start changes only its own device, keeping its views and pending snapshots if it succeeded and removing it if it failed, and nothing if that device was replaced. |
| DeviceMonitor.DeviceRefs.OnStopSettled | src/hooks/useOpnsense.ts:347-358 | The end of a stop removes the device it was called for, unless that was replaced, and no other. |
| ScanCsv.ReadsCellBack | src/lib/scanCsv.ts:3-5 | A printed cell reads back as its text under section 2 of RFC 4180, whatever quotes, commas and line breaks it holds. |
| ScanCsv.TableRoundTrip | src/lib/scanCsv.ts:9-25 | Reading any printed table of non-empty records gives the table back, so printing is injective. |
| ScanCsv.ScanReadsBack | src/lib/scanCsv.ts:9-25 | The export of a scan reads back as the header and one seven-field record per host. |
| ScanCsv.CellsMatchTheHeader | src/lib/scanCsv.ts:10-21 | Each value stands under its own title, missing values are empty, and the RTT column always is. |
| ScanCsv.EmptyScanIsTheHeader | src/lib/scanCsv.ts:9-25 | The export of an empty scan is the byte order mark, the seven quoted titles with commas between them, and a line feed. |
| ScanCsv.EachHostIsALine | src/lib/scanCsv.ts:12-25 | Each further host adds one line at the end: its seven cells quoted, with commas between them. |
| ScanCsv.CellsAreQuoted | src/lib/scanCsv.ts:3-5 | Every cell stands between quotes, and a text without quotes stands there unchanged. |
| ScanCsv.PortsFollowEachOther | src/lib/scanCsv.ts:17 | A port is its number, a space and its service, and ports follow each other after a space. |
| ScanCsv.PortsSplitIntoWords | src/lib/scanCsv.ts:17 | Splitting the port cell at spaces gives each port number followed by the words of its service. |
| ScanCsv.DecimalMeansItsNumber | src/lib/scanCsv.ts:17 | The digits printed for a port have the port's value. |
| ScanCsv.PortCellsAgree | src/lib/scanCsv.ts:17 | Two lists of ports print alike if and only if they are the same words, port numbers and words of services in turn, for all service names. |
| ScanCsv.SameFileMeansSameScan | src/lib/scanCsv.ts:9-25 | Two scans, whatever texts they hold, export the same file if and only if host by host their cells agree, up to missing versus empty values and the grouping of words into ports. |
| ScanCsv.ScanFileDeterminesPorts | src-tauri/src/scan/ports.rs:14-40 | With the services a scan reports, all single words, the file determines the hosts and their open ports. |
| CollapseDiff.Collapse | src/components/MikrotikBackupLibrary.tsx:41-76 | Unfolding every gap gives back the input; a line is hidden if and only if no change is within three lines of it and the same holds for a neighbour; gaps hold two or more unchanged lines, never stand side by side, and are numbered 1, 2, 3. |
| CollapseDiff.Flush | src/components/MikrotikBackupLibrary.tsx:46-66 | A pending run is shown whole or folded between its context lines, and numbers a group only if folded. |
| CollapseDiff.HiddenInRun | src/components/MikrotikBackupLibrary.tsx:49-57 | The run-length test of the loop hides exactly the lines that are far from every change together with a neighbour. |
| CollapseDiff.ContextIsNeverHidden | src/components/MikrotikBackupLibrary.tsx:39-76 | A changed line and three lines on either side are always visible. |
| CollapseDiff.FarNeighboursAreHidden | src/components/MikrotikBackupLibrary.tsx:39-76 | Two neighbouring lines with no change on them or within three lines of either are hidden, and a line is hidden only as one of such two. |
| CollapseDiff.ViewIsDetermined | src/components/MikrotikBackupLibrary.tsx:41-76 | Losslessness, visibility and well-formedness leave one possible list of rows, group ids included. |
| HopTable.SortProperties | src/lib/traceHops.ts:6-8 | The stable sort permutes the rows, orders them by hop and leaves the first row of each hop the first. |
| HopTable.ApplyIsLocal | src/lib/traceHops.ts:59-95 | An event changes the row of its own hop only, independently of the other rows, and keeps hops unique and ascending. |
| HopTable.HopEventIsShown | src/lib/traceHops.ts:59-76 | After a hop event the row of its hop shows the event's address, round trips, annotation and time, and keeps the hostname it had. |
| HopTable.HostnameNeedsItsAddress | src/lib/traceHops.ts:78-95 | A hostname reaches its row if and only if the row has the address it was resolved for; otherwise the table stays as it is. |
| HopTable.FoldIsPerHop | src/lib/traceHops.ts:59-95 | Folding any events from the empty table gives unique ascending hops, and each row is the fold of its own hop's events. |
| HopTable.OrderAcrossHopsIsIrrelevant | src/lib/traceHops.ts:59-95 | Two event streams that agree hop by hop fold to the same table. |
| HopTable.EventsCommute | src/lib/traceHops.ts:59-95 | Events of different hops commute. |
| TraceCompare.CompareTraceHops | src/lib/traceHops.ts:27-57 | The loop over hop numbers computes the join. |
| TraceCompare.ComparisonJoinsByHop | src/lib/traceHops.ts:37-55 | Rows have strictly ascending hops and pair the first rows of that hop in the two traces; status says whether both are there and have one address. |
| TraceCompare.ComparisonCoversEveryHop | src/lib/traceHops.ts:37-55 | Every hop from 1 on that either trace has gets a row, whether or not the trace repeats hops. |
| TraceCompare.ASideIsTheTrace | src/lib/traceHops.ts:27-57 | The a sides, read down, are exactly trace a sorted by hop if and only if its hops are positive and distinct. |
| TraceCompare.BSideIsTheTrace | src/lib/traceHops.ts:27-57 | The b sides are exactly trace b sorted by hop under the same condition on b. |
| TraceCompare.SwappingMirrors | src/lib/traceHops.ts:27-57 | Swapping the traces swaps the two sides and the one-sided statuses of every row. |
| TraceCompare.SelfComparisonIsSame | src/lib/traceHops.ts:45-47 | A trace against itself has the same row on both sides everywhere. |
| PageResources.SlowestByRank | src/lib/pageResources.ts:83-87 | A resource is among the five slowest if and only if fewer than five took longer, ties going to the earlier. |
| PageResources.ListedExactlyIfItPasses | src/lib/pageResources.ts:62-95 | A resource is listed if and only if its type is wanted, its status is (any; a code within the chosen hundred; or an error instead) and, when asked for, it is one of the five slowest of all resources, listed or not. |
| PageResources.OrderIsTotal | src/lib/pageResources.ts:97-112 | For every key, direction and collation the comparator is antisymmetric, transitive, and never ties two entries. |
| Ordering.OrderedIsUnique | src/lib/pageResources.ts:97-112 | Two arrangements of the same rows that both respect a comparator without ties are equal, so the choice of sort does not matter. |
| PageResources.TableIsDetermined | src/lib/pageResources.ts:77-114 | The table is the one ordered arrangement of the listed resources, whatever sorting procedure is used. |
| PageResources.ColumnIsSorted | src/lib/pageResources.ts:27-56 | The chosen column ascends or descends down the table, missing status codes aside, and rows that tie in it ascend by URL. |
| PageResources.TiesKeepTheirOrder | src/lib/pageResources.ts:107-112 | Rows equal in the column and the URL keep the order in which they were listed. |
| PageResources.MissingStatusComesLast | src/lib/pageResources.ts:101-106 | Sorted by status in either direction, nothing with a status follows a resource without one. |
| PageResources.MissingErrorFollowsDirection | src/lib/pageResources.ts:49-52 | Sorted by error, resources without one come last when ascending and first when descending. |

## Left out

- Floating point: round trips, rates, means and percentiles are reals; rounding, NaN, infinities and the square root are
  not modelled, and variances stand for squared deviations. Bucket boundaries are the exact `floor(i * n / k)`, without
  the rounding of `bucketSize`.
- `i64` and `u64` overflow of counters and second counts, except the saturating sequence number of a probe row.
- Target resolution, engine choice, `parse_family` and everything that runs before a session row exists.
- `SessionManager` itself as an object: its methods suspend, so the active map is a field of a state machine whose steps
  run from await point to await point. A panicking task is not modelled.
- A database error reported after its transaction committed; such a flush counts as stored here.
- Deletion of a session that is still running: `SessionSystem` does not enable it.
- All columns of the session listing other than the ending, the counts and the loss percentage.
- SessionSystem makes a start one step: between the creation of its row and the entry into the active map, a stop of the
  fresh id would be answered with NotRunning, and no task runs yet.
- The mean round trip of a bucket, which nothing reads.
- Publishing to React state, rendering, routing, the log filters and the text of error messages.
- Keys of traffic sources as JSON text: sources key the maps themselves, the text being injective.
- Interface names that collide with properties every JavaScript object has, and lone surrogates in exported text.
- JSON parsing of stored MikroTik snapshots, and its firmware and update status fields.
- Devices of the firewall monitor are values in a map with a serial number for object identity, so aliasing of the mutable
  device object is captured only through that number; firmware, backups, revisions and profiles are not modelled.
- The collation of the user's locale: resource tables are sorted by any assignment of weights to texts.
- `splitUrlForDisplay` and the names of export files.
- MTU, DNS and the MikroTik and OPNsense backends.
