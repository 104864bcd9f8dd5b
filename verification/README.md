# System Pulse, verified

A Dafny 4.11 model of the parts of System Pulse where state, interleaving or untrusted input make the
behaviour hard to see, with proofs of what they promise over whole runs. `dafny verify dfyconfig.toml`
checks everything.

## What is modelled

**History.** The database is a value (`HistoryDb.Db`): four tables keyed by `ts_ms` and a watermark per
rollup stage; `HistoryStores.HistoryStore` owns it and runs one SQL statement at a time. Functions that
run several statements take the number of them that run before the database refuses writes, so a crash
and an error return are the same thing. SQL REAL is `real`, NULL is `None`, `AVG .. GROUP BY` is written
with SQLite's truncating division. The specification is a one-shot cascade (raw to 10s to 1m to 5m, each
the NULL-skipping mean over the level below). The central result is that for every run of inserts,
complete or torn rollups and safe retention passes each unpruned row below its watermark equals that
cascade over all *on-time* samples, those inserted at or above the 10s watermark of that moment. A late
sample is lost to the rollups for good (`ClosedBucketsAreFinal`), so no assumption about inserts is
needed, and with none late the cascade is over everything inserted. "Safe retention" is exact: it is the
condition under which a pass deletes nothing the next stage still needs, and after a complete rollup at
the same instant only the row cap is left of it. Rollups are repairable: whatever complete or torn rollups
happened among inserts and safe passes, one complete rollup leaves the database it would leave as the only
one (`HistoryRepair.RollupsAreRepaired`). The raw table is characterised for every run at all, late samples
and biting row caps included (`HistoryRaw.RawIsCapped`).

**Writer.** `HistoryWriters.HistoryWriter` has the bounded channel, the batch buffer and one pass of the
loop in its two halves, the receive and the maintenance pass. Maintenance runs without flushing the buffer, and
retention whether or not the rollup succeeded, as in the source. The producer stamps a sample at the start of
its frame and records it at the end, two separate actions. The joint results say exactly which samples the
rollups miss: those of failed batches, and those a maintenance pass found in the buffer or the channel, or
stamped and not recorded, when it closed their bucket; at most 256 + 10 of the latter to a pass. Each receive
carries how long it waited, so that waiting in the buffer is bounded in loop iterations and in milliseconds.

**Hysteresis.** The engine's map of counters refines a statement about the whole candidate history. An
id that occurs several times in one evaluation is counted several times, so runs are measured in
instances; with distinct ids that is the number of consecutive evaluations.

**SMBIOS.** The nested cursor loops are proved against a position-based parse function for arbitrary
bytes. The round trip is proved with its exact condition: the walk skips only one of the two NULs of an
empty string set, so what follows a structure without strings does not read back as it was written. The
inventory is proved from bytes: a table that names a BIOS, a board and modules gives back what it names.

**Anomaly statistics.** Sorted median, MAD and the two moving averages, over the reals, with the exact condition
under which a reading is reported.

**Scheduler and transport.** The worker's pass and its wake time, the resume flags as a state machine over
single atomic accesses, which readings each rate is computed from, and the latest-wins mailbox.

**Hotkeys.** The parser, both printers, `sanitize`, and the frontend recorder.

## Where the code differs from what its comments say

- `crates/system-pulse-core/src/history/store.rs:251` speaks of the coarsest covering table; the code
  picks the finest (`ChosenTableIsFinestThatCovers`).
- `crates/system-pulse-core/src/history/writer.rs:24-25` calls 5 s an upper bound on waiting; the timeout
  fires only when no message arrives. What holds is one interval for each place left in the buffer
  (`BufferedSampleWaitsAtMost`); `FlushIntervalIsBoundIff` says for any arrivals when 5 s is met, and at a
  steady pace that is when samples come at most 555 ms or at least 5 s apart, so not at one a second
  (`SteadyPaceIsInTimeIff`).
- The row cap on the raw table is no mere backstop at short refresh intervals: at 450 ms and below the table
  covers less than the thirty minutes it is chosen for (`RawTableCoversIff`, `RegularRawQuery`).
- A maintenance pass can close the bucket of a sample that has been stamped and not recorded yet, although
  nothing is in the buffer or the channel (`StampedSampleCanBeMissed`).
- `set_visible` publishes the new visibility before it stores the resume flags, so a frame that looks at its
  flag in that gap is still computed against the old baseline (`IterationBeforeStoreCanSpan`); a frame is safe
  exactly when it looks after the store (`FreshIffSwappedAfterStore`).
- One resume flag serves two warm workers, so one resume resets the baselines of one of them
  (`OneResumeResetsOneWorker`), and the other computes a rate over the hidden time (`WarmRateCanSpan`).
- In a memory device's Size field the marker bit 15 is masked, against section 7.18 of DSP0134: sizes in KiB
  come out 1024 times too large and an unknown size, 0xFFFF, as 32767 MiB (`SizeIsReadIff`,
  `MarkerBitIsMasked`).

## Model

| member | source | states |
|---|---|---|
| Buckets.BucketStart | crates/system-pulse-core/src/history/rollup.rs:13-15 | the result is a multiple of the width at most one width below the timestamp, for negative timestamps too |
| Buckets.AlignedIsBucketStart | crates/system-pulse-core/src/history/rollup.rs:6-15 | no other multiple has the timestamp in its bucket |
| Buckets.SqlBucketAgrees | crates/system-pulse-core/src/history/store.rs:184-192 | SQL's truncating grouping equals `bucket_start` if and only if the timestamp is not negative or sits on a boundary |
| Aggregates.SelectIsView | crates/system-pulse-core/src/history/store.rs:181-193 | over an aligned non-negative range the INSERT .. SELECT computes exactly the rows of the one-shot view in that range |
| Aggregates.MeanHull | crates/system-pulse-core/src/history/store.rs:185-187 | a mean is NULL exactly when every reading is, else between any bounds on the readings |
| Averages.MeanOfOne | crates/system-pulse-core/src/history/store.rs:185-187 | the mean of a single reading is that reading |
| Averages.MeanOfParts | crates/system-pulse-core/src/history/store.rs:185-187 | the mean of a range is the mean of its parts, each weighted with its number of readings; with MeanOfOne this leaves no other function |
| Averages.MeanOfTwo | crates/system-pulse-core/src/history/store.rs:185-187 | the mean of two readings is their middle |
| Averages.StageRowIsMean | crates/system-pulse-core/src/history/store.rs:181-193 | each row a stage fills in holds, in every column, the mean of the source rows in its bucket |
| Averages.TwoReadingsRollUp | crates/system-pulse-core/src/history/store.rs:168-224 | two readings of a 10s bucket come out of a rollup as their middle |
| HistoryDb.RollupKeepsMarks | crates/system-pulse-core/src/history/store.rs:168-224 | wherever a rollup stops and wherever the clock stepped, watermarks stay non-negative, aligned, ordered, never move back and never pass the clock |
| HistoryDb.RollupReaches | crates/system-pulse-core/src/history/store.rs:176-194 | after a complete rollup less than one bucket is unconsumed at each stage |
| HistoryDb.RollupNeverTouchesClosedBuckets | crates/system-pulse-core/src/history/store.rs:176-195 | no rollup changes, adds or removes a row below the watermark |
| HistoryDb.NewestRowsCount | crates/system-pulse-core/src/history/store.rs:242-247 | the backstop leaves min(rows, cap) rows, the newest ones |
| HistoryView.InsertKeepsInv | crates/system-pulse-core/src/history/store.rs:118-139 | any batch, late samples included, keeps the tables in step with the view of the on-time samples |
| HistoryView.RollupKeepsInv | crates/system-pulse-core/src/history/store.rs:168-224 | a rollup stopped after any statement keeps them in step |
| HistoryView.RetentionKeepsInv | crates/system-pulse-core/src/history/store.rs:226-249 | a safe retention pass stopped after any statement keeps them in step |
| HistoryTheorems.TablesAgreeWithOneShot | crates/system-pulse-core/src/history/store.rs:162-249 | after any run with safe retention every row below its watermark is the one-shot cascaded mean, and no unpruned row is missing |
| HistoryTheorems.NoLateSamples | crates/system-pulse-core/src/history/store.rs:118-139 | with every insert at or above the watermark the view covers every raw row ever inserted |
| HistoryTheorems.DisciplinedTablesAgree | crates/system-pulse-core/src/history/store.rs:168-249 | with retention only after a complete rollup at the same instant, the row cap not exceeded and nothing late, unpruned rows are exactly the cascade over all raw rows ever inserted |
| HistoryTheorems.RunKeepsMarks | crates/system-pulse-core/src/history/store.rs:141-195 | for every run and any sequence of clock values the watermarks stay non-negative, aligned and ordered, and never move back |
| HistoryTheorems.MarksNeverPassClock | crates/system-pulse-core/src/history/store.rs:141-195 | over every run a watermark that moved is no later than the latest rollup so far |
| HistoryTheorems.ClosedBucketsAreFinal | crates/system-pulse-core/src/history/store.rs:168-195 | in every run a closed bucket's row is final: pruned at most, never changed or created, so late samples are lost |
| HistoryTheorems.RetentionKeepsUnconsumedIff | crates/system-pulse-core/src/history/store.rs:234-249 | a pass keeps every unconsumed row if and only if none is past its cutoff and at most RAW_ROW_CAP raw rows wait |
| HistoryTheorems.RetentionSafeAfterRollup | crates/system-pulse-core/src/history/store.rs:201-249 | after a complete rollup at the same instant a pass is safe if and only if the row cap is not exceeded |
| HistoryTheorems.RetentionWithoutRollupLosesData | crates/system-pulse-core/src/history/writer.rs:125-130 | a run in which retention without a rollup empties a closed bucket although nothing was late |
| HistoryTheorems.CascadeHull | crates/system-pulse-core/src/history/store.rs:162-193 | through all three stages a value is NULL exactly when every raw reading is, else inside any bounds on the raw readings of its bucket |
| HistoryTheorems.StoredValuesStayInHull | crates/system-pulse-core/src/history/store.rs:162-249 | the same for what the tables hold after a run |
| HistoryCrash.FillTwice | crates/system-pulse-core/src/history/store.rs:176-194 | filling to an earlier and then a later bucket boundary is filling to the later one, whether or not the watermark was written between |
| HistoryRepair.RetentionCommutes | crates/system-pulse-core/src/history/store.rs:168-249 | a torn rollup and a retention pass that deletes no unconsumed row can change places |
| HistoryRepair.RollupsAreRepaired | crates/system-pulse-core/src/history/store.rs:168-249 | for every run of on-time inserts, rollups stopped after any statement and passes that delete no source row at or above the old watermarks: a complete rollup leaves exactly the database it would leave without the earlier ones |
| HistoryRepair.TornRollupIsRepaired | crates/system-pulse-core/src/history/writer.rs:123-132 | the order in which the writer meets a failure: torn rollup, retention pass, batch, next complete rollup |
| HistoryStores.HistoryStore.InsertRawBatch | crates/system-pulse-core/src/history/store.rs:118-139 | all rows or none |
| HistoryStores.HistoryStore.RollupInto | crates/system-pulse-core/src/history/store.rs:168-196 | the new database and when it reports success |
| HistoryStores.HistoryStore.Rollup | crates/system-pulse-core/src/history/store.rs:201-224 | the new database at any failure point; it reports success exactly when that is what the complete rollup leaves |
| HistoryStores.HistoryStore.PruneTable | crates/system-pulse-core/src/history/store.rs:226-232 | one table loses exactly its rows before the cutoff |
| HistoryStores.HistoryStore.ApplyRetention | crates/system-pulse-core/src/history/store.rs:237-249 | the new database at any failure point |
| HistoryStores.HistoryStore.Query | crates/system-pulse-core/src/history/store.rs:268-292 | strictly increasing in time, exactly the non-NULL rows of the chosen table in the inclusive range |
| HistoryStores.PointBound | crates/system-pulse-core/src/history/store.rs:251-254 | points on bucket starts number at most span / width + 1 |
| HistoryRaw.RawIsCapped | crates/system-pulse-core/src/history/store.rs:118-249 | in every run the raw table is, from the last cutoff up, the newest RAW_ROW_CAP rows inserted by the last complete pass and everything inserted since |
| HistoryRaw.CapTwice | crates/system-pulse-core/src/history/store.rs:242-247 | capping what an earlier cap left is capping everything |
| HistoryRaw.CappedIsComplete | crates/system-pulse-core/src/history/store.rs:234-247 | the cap cost nothing from an instant up if, and unless newer samples took the place of lost ones only if, at most RAW_ROW_CAP rows lay there at the last complete pass |
| HistoryRaw.CappedIsInserted | crates/system-pulse-core/src/history/store.rs:234-247 | and what it left was inserted as it stands |
| HistoryQuery.ChosenTableIsFinestThatCovers | crates/system-pulse-core/src/history/store.rs:255-266 | up to thirty days no pass by the end of the range pruned the chosen table inside it; any table that keeps rows for less time would hold nothing as old as its start |
| HistoryQuery.RowsAboveMarkAreTorn | crates/system-pulse-core/src/history/store.rs:176-195 | only a rollup stopped between a stage's INSERT and its watermark leaves rows at or above that watermark |
| HistoryQuery.RolledQueryAnswers | crates/system-pulse-core/src/history/store.rs:237-292 | a query the rollup tables serve, up to thirty days and ending no earlier than the last retention pass, returns a bucket exactly when it is closed and the one-shot cascade has a value there, and that value; beyond that only what a torn rollup left |
| HistoryQuery.RolledQueryIsExact | crates/system-pulse-core/src/history/store.rs:237-292 | without torn rollups the answer is exactly the closed buckets of the cascade, to the end of the range |
| HistoryQuery.RawQueryAnswers | crates/system-pulse-core/src/history/store.rs:237-292 | a query the raw table serves that ends no earlier than the last pass returns, after any run, exactly what the row cap left of everything ever inserted in the range |
| HistoryQuery.RawQueryAnswersEverything | crates/system-pulse-core/src/history/store.rs:237-292 | and everything ever inserted in the range when at most RAW_ROW_CAP rows lay from its start up at the last complete pass |
| HistoryQuery.RawQueryAfterPass | crates/system-pulse-core/src/history/store.rs:237-292 | right after a complete pass, exactly the newest RAW_ROW_CAP of everything inserted |
| HistoryQuery.RegularRawQuery | crates/system-pulse-core/src/history/store.rs:237-249 | with a sample every gap ms, the k-th newest is returned if and only if k < RAW_ROW_CAP |
| HistoryQuery.RawTableCoversIff | crates/system-pulse-core/src/history/mod.rs:138-154 | with a reading every gap ms, a query right after a complete pass misses nothing of the last thirty minutes if and only if gap > 450 |
| HistoryQuery.RawQueryAnswersUnconsumed | crates/system-pulse-core/src/history/store.rs:268-292 | for any range, and whenever passes ran as long as they were safe, a raw query returns above the 10s watermark exactly the on-time samples |
| HistoryQuery.RollupQueryIsSmall | crates/system-pulse-core/src/history/store.rs:251-292 | a rollup query returns at most span / bucket + 1 points after any run |
| HistoryQuery.FieldsComeBack | crates/system-pulse-core/src/history/mod.rs:101-113 | each field of a sample comes back from a query of its own series |
| HistoryWriters.HistoryWriter.TryRecord | crates/system-pulse-core/src/history/writer.rs:68-72 | queued, or counted as dropped when the channel is full or the writer gone |
| HistoryWriters.HistoryWriter.RequestStop | crates/system-pulse-core/src/history/writer.rs:83-88 | queues the stop message behind everything accepted |
| HistoryWriters.HistoryWriter.Flush | crates/system-pulse-core/src/history/writer.rs:136-147 | one batch insert, and an empty buffer whether or not it succeeded |
| HistoryWriters.HistoryWriter.ReceiveNext | crates/system-pulse-core/src/history/writer.rs:101-121 | one receive of the loop and what follows from it, on channel, buffer and database |
| HistoryWriters.HistoryWriter.MaintainStore | crates/system-pulse-core/src/history/writer.rs:123-132 | one maintenance pass: retention whether or not the rollup got through |
| WriterTheorems.WriterConserves | crates/system-pulse-core/src/history/writer.rs:66-147 | in every interleaving: attempts are dropped, waiting or handed over, in order and once; the buffer is short at loop head; after the loop ended everything accepted before the stop was handed over |
| WriterTheorems.BurstIsQueued | crates/system-pulse-core/src/history/writer.rs:66-72 | with no receive in between, exactly the first samples there is room for are queued in order behind what waits, and the rest are dropped |
| WriterTheorems.DroppedIffFullOrEnded | crates/system-pulse-core/src/history/writer.rs:66-72 | over any run exactly the attempts that find the channel full or the loop ended are dropped, and the others accepted in order |
| WriterTheorems.RunFollowsStore | crates/system-pulse-core/src/history/writer.rs:97-147 | the database of the joint theorems is the one the writer's methods leave in the store, over any run |
| WriterTheorems.BufferedSampleWaits | crates/system-pulse-core/src/history/writer.rs:102-121 | a buffered sample waits at most BATCH_SIZE - 1 further sample receives |
| WriterTheorems.BufferedSampleWaitsAtMost | crates/system-pulse-core/src/history/writer.rs:102-121 | it waits at most as many loop iterations of any kind as the buffer has places left, and one flush interval for each |
| WriterTheorems.FlushIntervalIsBoundIff | crates/system-pulse-core/src/history/writer.rs:24-25 | for any arrivals that fill the buffer up, its oldest sample waits at most the flush interval if and only if their gaps sum to at most that, or one reaches it and those before it are 0 |
| WriterTheorems.SteadyPaceIsInTimeIff | crates/system-pulse-core/src/history/writer.rs:24-25 | at a steady pace the first sample of a batch is in time if and only if samples come at most 555 ms or at least the interval apart |
| HistoryPipeline.LateIffClosedInFlight | crates/system-pulse-core/src/history/writer.rs:97-134 | a sample handed over is late if and only if a pass closed its bucket while it was in the buffer, in the channel, or stamped and not recorded, whatever statements failed |
| HistoryPipeline.RollupsHoldWhatIsNotLost | crates/system-pulse-core/src/history/writer.rs:97-147 | the data the rollups agree with has a row at a millisecond if and only if some sample there is not lost, in a failed batch or in flight; it is the last such sample's, and its closed bucket holds the mean |
| HistoryPipeline.HandedSampleIsAggregatedIff | crates/system-pulse-core/src/history/writer.rs:97-147 | a sample not lost is aggregated, and one lost and alone at its millisecond is not |
| HistoryPipeline.MaintenanceMissesFew | crates/system-pulse-core/src/history/writer.rs:97-134 | each maintenance pass costs at most CHANNEL_CAPACITY + BATCH_SIZE samples, whatever statements failed |
| HistoryPipeline.StampedSampleCanBeMissed | crates/system-pulse-core/src/scheduler/hot.rs:101-122 | a run without failures in which a sample is lost although nothing was in the buffer or the channel at the only pass |
| Hysteresis.HysteresisEngine.Evaluate | crates/system-pulse-core/src/alerts/mod.rs:110-149 | the new state map; the report holds the latest instance of each active id once, most severe first |
| Hysteresis.HysteresisEngine.Age | crates/system-pulse-core/src/alerts/mod.rs:124-133 | every unseen entry ages, in whatever order the map is walked |
| HysteresisTheorems.EngineRefinesHistory | crates/system-pulse-core/src/alerts/mod.rs:110-139 | an entry's counters, flag and instance are functions of the candidate history, dropped entries included |
| HysteresisTheorems.ActiveIsSpecified | crates/system-pulse-core/src/alerts/mod.rs:22-30 | active means some completed run of presences is not followed by a completed run of absences |
| HysteresisTheorems.ReportsWhatTheHistorySays | crates/system-pulse-core/src/alerts/mod.rs:107-149 | an alert is reported if and only if the history says so and it is the id's latest instance |
| HysteresisTheorems.LatestIs | crates/system-pulse-core/src/alerts/mod.rs:121 | the latest instance is the last candidate with that id in the last evaluation that has one |
| HysteresisTheorems.DistinctStreak | crates/system-pulse-core/src/alerts/mod.rs:112-122 | with distinct ids a run is complete when the id was present at each of the last `ticks` evaluations |
| HysteresisTheorems.ChangesAreSpent | crates/system-pulse-core/src/alerts/mod.rs:22-30 | for any history, repeated ids included, the changes of an id's reported state cost `ticks` absences or instances each |
| HysteresisTheorems.FlapBound | crates/system-pulse-core/src/alerts/mod.rs:22-30 | so with distinct ids, n evaluations change it at most n / ticks times |
| HysteresisTheorems.RepeatedIdRaisesAtOnce | crates/system-pulse-core/src/alerts/mod.rs:112-122 | with a repeated id the flap bound fails |
| HysteresisTheorems.KeepsOnlyRecentIds | crates/system-pulse-core/src/alerts/mod.rs:134-139 | the map holds exactly the ids present within the last `ticks` evaluations |
| Smbios.IterateStructures | crates/system-pulse-win/src/smbios.rs:61-121 | terminates in bounds on any bytes and returns the parse |
| Smbios.CollectStrings | crates/system-pulse-win/src/smbios.rs:80-108 | the string set and the cursor after it |
| Smbios.SkipString | crates/system-pulse-win/src/smbios.rs:86-93 | stops at the next NUL or the end |
| Smbios.StructureReadsBack | crates/system-pulse-win/src/smbios.rs:65-118 | an encoded structure reads back wherever it stands, and where the walk goes on |
| Smbios.RoundTripIff | crates/system-pulse-win/src/smbios.rs:61-121 | well-formed structures parse back from their encoding if and only if each but the last has a string and is not Type 127 |
| Smbios.PrefixStability | crates/system-pulse-win/src/smbios.rs:57-121 | any prefix of any table parses to a prefix of the full parse, its last structure possibly with fewer strings |
| SmbiosInventory.ParseSmbiosTable | crates/system-pulse-win/src/smbios.rs:159-194 | the inventory of the parsed structures |
| SmbiosInventory.BiosIsLast | crates/system-pulse-win/src/smbios.rs:163-167 | BIOS fields come from the last Type 0 structure |
| SmbiosInventory.BoardIsFirstNamed | crates/system-pulse-win/src/smbios.rs:168-176 | board fields come from the first Type 2 structure that names anything |
| InventoryTheorems.DimmReadsBack | crates/system-pulse-win/src/smbios.rs:38-55 | the formatted area of a memory device, byte by byte, gives back the strings its numbers name, its size and its speed |
| InventoryTheorems.InventoryRoundTrip | crates/system-pulse-win/src/smbios.rs:159-194 | the encoded table of a BIOS, a board and any modules gives back exactly what they name, modules in order |
| SmbiosInventory.TruncatedTableKeepsDimmSizes | crates/system-pulse-win/src/smbios.rs:177-190 | a truncated table invents no module and gets no size wrong |
| SmbiosInventory.DescribedSizeIsRead | crates/system-pulse-win/src/smbios.rs:127-141 | Size and Extended Size give back the described number of MiB; 0 is an empty slot |
| SmbiosInventory.SizeIsReadIff | crates/system-pulse-win/src/smbios.rs:127-141 | the reported size is the one the Size field stands for if and only if the field is missing or at most 0x8000 |
| SmbiosInventory.MarkerBitIsMasked | crates/system-pulse-win/src/smbios.rs:134-139 | with bit 15 set the reported size is 1024 times the one meant, and an unknown size becomes 32767 MiB |
| Anomaly.Check | crates/system-pulse-core/src/analysis/anomaly.rs:214-251 | scores the window before the reading joins it; a missing reading changes nothing |
| Anomaly.RollingStats.Push | crates/system-pulse-core/src/analysis/anomaly.rs:70-83 | the new window and averages |
| Anomaly.SortedIsUnique | crates/system-pulse-core/src/analysis/anomaly.rs:107-114 | the statistics do not depend on how the library sorts |
| AnomalyTheorems.MedianInMajority | crates/system-pulse-core/src/analysis/anomaly.rs:103-115 | the median lies where a strict majority lies |
| AnomalyTheorems.MadInMajority | crates/system-pulse-core/src/analysis/anomaly.rs:117-130 | the MAD is at most the width of that range |
| AnomalyTheorems.FarReadingIsFound | crates/system-pulse-core/src/analysis/anomaly.rs:132-149 | a reading at positive distance of at least 5 * 1.4826 * width from a strict majority's range is always reported as a spike |
| AnomalyTheorems.FarReadingIsFoundInRun | crates/system-pulse-core/src/analysis/anomaly.rs:214-251 | the same over any series, with the condition on its last 180 readings |
| AnomalyTheorems.SeparatedAveragesAreFound | crates/system-pulse-core/src/analysis/anomaly.rs:85-101 | averages 3 * 1.4826 * width apart are always reported |
| AnomalyTheorems.MedianIs | crates/system-pulse-core/src/analysis/anomaly.rs:103-115 | the median is the middle of the two values that meet in the middle of any sorted arrangement |
| AnomalyTheorems.DeviationsAre | crates/system-pulse-core/src/analysis/anomaly.rs:121-123 | the MAD is taken over the distances of the values from the centre |
| AnomalyTheorems.MadAtLeast | crates/system-pulse-core/src/analysis/anomaly.rs:117-130 | when a strict majority lies at least w from the median, so does the MAD |
| AnomalyTheorems.FindingIff | crates/system-pulse-core/src/analysis/anomaly.rs:214-240 | an alert is raised if and only if there are thirty readings and the reading lies 5 * 1.4826 MADs from the median or the averages 3 * 1.4826 MADs apart; without spread, if and only if they differ |
| AnomalyTheorems.FoundInRunIff | crates/system-pulse-core/src/analysis/anomaly.rs:214-240 | the same over any series |
| AnomalyTheorems.FindingCarries | crates/system-pulse-core/src/analysis/anomaly.rs:236-238 | the score is that distance in robust standard deviations, of the reading before the averages |
| AnomalyTheorems.CloseReadingIsNotFound | crates/system-pulse-core/src/analysis/anomaly.rs:132-149 | close readings are never reported, with the condition on the readings and averages alone |
| AnomalyTheorems.WindowIsSuffix | crates/system-pulse-core/src/analysis/anomaly.rs:70-74 | the window is the last WINDOW_LEN readings |
| AnomalyTheorems.AveragesStayIn | crates/system-pulse-core/src/analysis/anomaly.rs:75-82 | both averages stay inside any bounds on the readings |
| AnomalyTheorems.StepResponse | crates/system-pulse-core/src/analysis/anomaly.rs:42-53 | after n readings of a new level the averages keep 0.9^n and 0.99^n of their distance to it |
| AnomalyTheorems.FlatSeriesFlagsOnlyDepartures | crates/system-pulse-core/src/analysis/anomaly.rs:139-148 | after a flat series a reading is reported if and only if it differs |
| Worker.WorkerLoop.constructor | crates/system-pulse-core/src/scheduler/worker.rs:51-68 | each collector's period and jittered first due time |
| Worker.WorkerLoop.RunPass | crates/system-pulse-core/src/scheduler/worker.rs:94-113 | runs exactly the due collectors, each once and in order |
| Worker.WorkerLoop.RunPasses | crates/system-pulse-core/src/scheduler/worker.rs:82-114 | over all passes each collector runs in exactly the passes its schedule gives |
| Worker.NextWakeIsGreatest | crates/system-pulse-core/src/scheduler/worker.rs:95-113 | the wake time is the greatest that passes neither a due time nor now + 250 ms |
| Worker.JittersAreDistinct | crates/system-pulse-core/src/scheduler/worker.rs:19-25 | the first 250 collectors all start at different offsets |
| Worker.JitterSteps | crates/system-pulse-core/src/scheduler/worker.rs:23-25 | the offsets start at 0 and advance by 137 ms around a quarter of a second |
| Worker.CollectionRate | crates/system-pulse-core/src/scheduler/worker.rs:97-111 | at most (b - a) / d + 1 collections in [a, b], for any pass times |
| Worker.TimedCollectorRate | crates/system-pulse-core/src/scheduler/worker.rs:56-61 | the rate bound for warm and cold collectors, from their cadences on |
| Worker.HotRunsAtEveryPass | crates/system-pulse-core/src/scheduler/worker.rs:56-61 | a hot collector on a worker runs at every pass from its offset on |
| Worker.OnDemandNeverRuns | crates/system-pulse-core/src/scheduler/worker.rs:98-100 | an on-demand collector never runs on a timer |
| Worker.CadenceIsExact | crates/system-pulse-core/src/scheduler/worker.rs:19-25 | with punctual sleeps a collector runs at its first due time plus whole periods, with no drift |
| Mailboxes.Mailbox.PutValue | crates/system-pulse-core/src/transport/mailbox.rs:57-65 | replaces the slot and counts what it replaced |
| Mailboxes.Mailbox.TryTake | crates/system-pulse-core/src/transport/mailbox.rs:68-75 | empties the slot and counts a value taken |
| Mailboxes.Mailbox.TakeTimeout | crates/system-pulse-core/src/transport/mailbox.rs:77-97 | takes at once what is there, else what the other threads' operations during the wait left |
| Mailboxes.RecordFollowsMail | crates/system-pulse-core/src/transport/mailbox.rs:57-103 | the mailbox of the theorems is the one the methods make of the same operations |
| Mailboxes.MailboxIsFaithful | crates/system-pulse-core/src/transport/mailbox.rs:57-103 | over any interleaving produced = taken + coalesced + depth, and the taken values are an in-order repeat-free subsequence of the puts |
| Mailboxes.TakeReturnsLatest | crates/system-pulse-core/src/transport/mailbox.rs:67-97 | a take returns the most recent put, and an empty one means it was already taken |
| Resume.CpuCollector.Probe | crates/system-pulse-core/src/collector/cpu.rs:65-76 | a successful read becomes the baseline |
| Resume.CpuCollector.Collect | crates/system-pulse-core/src/collector/cpu.rs:78-94 | which two readings a rate is computed from; a failed read reports failure and keeps the baseline |
| Resume.CpuCollector.ResetBaseline | crates/system-pulse-core/src/collector/cpu.rs:122-124 | no baseline |
| ResumeRates.HotRatesArePairs | crates/system-pulse-core/src/collector/cpu.rs:78-94 | in every interleaving the hot loop reports exactly one rate for every two successive successful reads with no reset in between, from those two, in order |
| ResumeRates.WarmRatesArePairs | crates/system-pulse-core/src/scheduler/worker.rs:82-114 | and so does each warm worker |
| ResumeRates.EdgeStoresBothFlags | crates/system-pulse-core/src/scheduler/mod.rs:79-87 | every change from hidden to visible has stored both flags when its call returns |
| ResumeRates.OtherCallsStoreNothing | crates/system-pulse-core/src/scheduler/mod.rs:79-87 | no other call stores either |
| ResumeRates.HiddenLoopsRest | crates/system-pulse-core/src/scheduler/hot.rs:89-93 | while the window stays hidden, loops between two iterations read and compute nothing |
| Resume.FreshIffSwappedAfterStore | crates/system-pulse-core/src/scheduler/hot.rs:89-113 | in every interleaving a rate comes from two readings both taken after a resume flag was stored if and only if its iteration swapped the flag after that store |
| Resume.RatesNeverSpanAResume | crates/system-pulse-core/src/scheduler/hot.rs:89-113 | so for every iteration begun after the store |
| Resume.IterationBeforeStoreCanSpan | crates/system-pulse-core/src/scheduler/mod.rs:79-87 | an interleaving in which an iteration begun between the visibility swap and the store still spans the hidden time |
| Resume.FlagsAreConsumedOnce | crates/system-pulse-core/src/scheduler/worker.rs:88-92 | each pending hot flag is consumed by one iteration, each pending warm flag by one of the two workers |
| Resume.OneResumeResetsOneWorker | crates/system-pulse-core/src/scheduler/mod.rs:176-187 | while at most one warm resume became pending, one of the workers never consumed one |
| Resume.WarmRatesAreFreshAfterReset | crates/system-pulse-core/src/scheduler/worker.rs:83-113 | a worker that has reset since a store computes rates from two readings taken after it |
| Resume.WarmRateCanSpan | crates/system-pulse-core/src/scheduler/mod.rs:176-187 | an interleaving in which the other worker, its iteration begun after the store, computes a rate that spans the hidden time |
| Hotkeys.ParseHotkey | crates/system-pulse-core/src/settings.rs:116-156 | the loop computes the parse, with its four errors |
| Hotkeys.DisplayHotkey | crates/system-pulse-core/src/settings.rs:159-175 | the canonical form |
| Hotkeys.Settings.Sanitize | crates/system-pulse-core/src/settings.rs:46-54 | the new hotkey and interval |
| Hotkeys.HotkeyFromEvent | src/lib/hotkey.ts:29-41 | the recorded string, or none without a key or a modifier |
| HotkeyTheorems.CanonicalNormalizes | crates/system-pulse-core/src/settings.rs:224-253 | a canonical key is recovered from any spelling that differs in letter case only |
| HotkeyTheorems.ParserAccepts | crates/system-pulse-core/src/settings.rs:116-156 | accepted if and only if exactly one non-blank part is a valid key and some part a modifier; the flags are those named |
| HotkeyMeanings.ParserErrors | crates/system-pulse-core/src/settings.rs:116-156 | which of the four errors, checked in which order |
| HotkeyMeanings.ModifierIff | crates/system-pulse-core/src/settings.rs:135-139 | the words for each modifier |
| HotkeyMeanings.NormalizeIff | crates/system-pulse-core/src/settings.rs:224-253 | a word means a key if and only if it is its name or nickname in any letter case, or its number with leading zeros |
| HotkeyMeanings.NamesParse | crates/system-pulse-core/src/settings.rs:116-156 | a modifier and a key parse under any of their names, in any letter case |
| HotkeyMeanings.DisplayIs | crates/system-pulse-core/src/settings.rs:159-175 | the display form letter by letter: modifiers in one fixed order, then the key |
| HotkeyMeanings.ShortcutIs | crates/system-pulse-core/src/settings.rs:177-195 | the shortcut form likewise, the key in lower case |
| Strings.JoinSplit | crates/system-pulse-core/src/settings.rs:130 | the parts are what stands between the plus signs |
| Strings.TrimIs | crates/system-pulse-core/src/settings.rs:117-131 | trimming takes the white space off both ends and nothing else |
| HotkeyTheorems.ParsedHotkeyRoundTrips | crates/system-pulse-core/src/settings.rs:158-195 | display form and shortcut form of a parsed hotkey both parse back to it |
| HotkeyTheorems.ShortcutIsInjective | crates/system-pulse-core/src/settings.rs:177-221 | different parsed hotkeys have different shortcuts |
| HotkeyTheorems.SanitizeIsIdempotent | crates/system-pulse-core/src/settings.rs:45-54 | a sanitized hotkey parses, means what the input meant, and is left alone by sanitizing again |
| HotkeyTheorems.ClampIsIdempotent | crates/system-pulse-core/src/settings.rs:47-49 | the interval ends up in bounds, is changed only if it was not, and clamping again leaves it alone |
| HotkeyTheorems.RecordedIsFixedPoint | src/lib/hotkey.ts:22-41 | every string the recorder emits is accepted and is its own display form |
| HotkeyMeanings.RecorderKeyIff | src/lib/hotkey.ts:4-26 | the recorder takes an event for a key if and only if the event's key is one that means it |
| HotkeyMeanings.RecordedMeansEvent | src/lib/hotkey.ts:22-41 | what it emits parses to the event's own modifiers and key, and it emits nothing only without a modifier or a key it knows |

## Left out

- HistoryPipeline.LateIffClosedInFlight: assumes that what is recorded is the last sample stamped, as the one producer ensures, and that one clock stamps samples and dates passes and does not step back, because a clock that steps back can make any sample late.
- HistoryPipeline.MaintenanceMissesFew: under the same assumption.
- HistoryPipeline.RollupsHoldWhatIsNotLost: assumes besides that no pass deletes a row its rollup left unconsumed, as in `TablesAgreeWithOneShot`; statements may fail otherwise.
- HistoryView.RetentionKeepsInv: requires a safe pass, because the writer runs retention even when the rollup failed; `RetentionKeepsUnconsumedIff` gives the exact condition and `RetentionWithoutRollupLosesData` a run without it.
- HysteresisTheorems.FlapBound: requires distinct ids within one evaluation, as `RepeatedIdRaisesAtOnce` shows it must; `ChangesAreSpent` needs none.
- Hysteresis.HysteresisEngine.Evaluate: counters are unbounded, the source's are 32-bit; the order of alerts of one severity is unspecified, as it comes from hash-map iteration.
- Resume.RatesNeverSpanAResume: atomic accesses interleave in one total order; weaker memory orderings, spurious wakeups and the sleeps themselves are not part of this model, and shutdown is not either.
- Resume.WarmRateCanSpan: each worker has one collector with a baseline here, collected at every pass.
- Worker.CadenceIsExact: assumes sleeps that end exactly at the wake time and collectors that take no time; `CollectionRate` needs neither.
- WriterTheorems.BufferedSampleWaitsAtMost: counts the time spent waiting for messages; the time a flush or a maintenance pass takes is not part of this model.
- HistoryQuery.RegularRawQuery: speaks of the instant right after a complete pass; until the next one the table also holds what was inserted since (`RawQueryAnswers`).
- HistoryRepair.RollupsAreRepaired: requires passes that delete no source row at or above the watermarks of the run without rollups, since what such a pass deletes cannot be repaired.
- Mailboxes.Mailbox.TakeTimeout: what other threads do during the wait is a parameter; the clock that ends it is not part of this model.
- HistoryWriters.HistoryWriter.MaintainStore: when a pass is due, thread start-up and joining are the environment's choice of actions.
- Smbios.RoundTripIff: strings are bytes; the lossy UTF-8 decoding is not part of this model.
- Floating-point rounding: means, averages, MAD and scores are exact reals, so tests such as `fast == slow` are exact here.
- SQLite itself, its journal, migrations and file paths; a table is a map and a statement is atomic.
- Windows API, COM, PDH, NVML, WMI and registry calls, and the collectors built on them.
- The seven detectors behind `AnomalyDetector::detect`, alert texts, health thresholds, scores and correlation: each is a single branch.
- The user interface, IPC, tray, autostart and serialization contracts: plumbing.
- The recorder's lookup of inherited property names such as `constructor`: no keyboard event carries them.
