# Verification of the post-trade pipeline

This project models the three state machines of the post-trade repository in Dafny and proves what
they keep over every run, separately and composed.

* **Delivery.** The ingestor numbers each symbol's ticks and appends them to a stream; consumer groups
  hand entries to workers; workers write batches to the tick table and acknowledge them afterwards. Any
  number of groups and workers, crashes, stop signals, message caps, reclaims and restarts of the ingestor
  interleave freely (`Ingestor`, `Delivery`, `DeliverySafety`, `DeliveryCounts`, `DeliveryOrder`). `RedisStream` and
  `WorkerLoop` hold the consumer and the worker loop as objects and prove that they follow the protocol.
* **Reconciliation.** The simulator trades against the tick stream and plants anomalies; the reconciler
  reports breaks from tables it re-sorts; the report scores them (`Simulator`, `SimulatedBook`,
  `SimulatedTrades`, `Reconciler`, `SequenceGaps`, `Ledger`, `AnomalyDetection`, `PlantedGaps`, `BreakReport`).
  `SharedBook` and `SimulatorRestart` are about several simulators over one book. The warehouse's SQL gap
  test is compared with the reconciler in `SqlGapTest`.
* **Bronze and silver.** The bronze writer buffers raw lines and puts newline-delimited objects; discovery
  and the sensor find partitions; the silver rebuild drops repeats, renumbers and rewrites a partition
  (`Ndjson`, `Partitions`, `BronzeWriter`, `BronzeLanding`, `SilverTransform`, `Sensor`, `LiveFeed`).

`DeliveredFeed` joins the first two: what the reconciler reports about ticks that the protocol stored.
`PlantedRoundTrip` joins simulator, reconciler and report in one method. `LiveFeed` joins the ingestor,
the bronze writer and the silver rebuild. Code that updates fields is a class or a method here; each is
proved against a function of its inputs and old state, and the theorems are about those functions.

Prices and sizes are exact decimals, kept as reals; fill quantities and positions are integers in
micro-units, times are integers in microseconds. Stream ids are positions. Random choices, fresh ids, clock
readings, put outcomes and what a line parses to are inputs.

## Where the code and its own words differ

Each of these is a promise that the code does not keep on every input. The lemma named shows an input that
fails and, where the promise is a property, the `...Iff` lemma says exactly when it holds.

* The simulator's class docstring says a drifted position stays drifted. The code drifts one snapshot and
  leaves the true position alone, so each drift is one break (`AnomalyDetection.DriftBreaksArePlanted`). A
  fill planted as unmatched gets no snapshot at all, so it is never reported as a drift
  (`AnomalyDetection.UnmatchedFillNeverDrifts`).
* The reconciler is presented as independent of who wrote the book. Positions and execution sequences
  restart at zero with every simulator instance, so two plain trades of two instances look like a drift
  (`SimulatorRestart.TwoTradesLookLikeDrift`). `SimulatorRestart.RestartReportsPlantedIff` says for any number
  of instances, whatever they planted, exactly when the planted drifts and nothing else are reported;
  `SimulatorRestart.RestartIsSilentIff` what that means when none was planted; and when each instance wrote a
  snapshot, that is when at most one traded the symbol (`SimulatorRestart.RestartLooksLikeDriftIff`).
* The silver rebuild is described as always safe to run again. A row that does not fit the table's schema
  raises after the old files are gone (`Silver.NinthDecimalLosesPartition`);
  `Silver.OneFilePerPartitionIff` says exactly when a partition still holds its last completed rows.
* One normalization for live and replay is said to make them agree. A text that arrives twice is published
  twice and replayed once (`LiveFeed.RepeatedTextIsReplayedOnce`), and a message whose put failed is never
  published but can still land and be replayed (`LiveFeed.RaisedMessageIsReplayed`).
  `LiveFeed.ReplayAgreesWithLiveIff` says exactly when they agree, whatever failed and whatever the texts
  hold, over runs that left nothing buffered. When no two texts carry the same payload, that is when nothing
  that is read raises, the carrying texts that are read are those that were handled, and none was handled
  twice (`LiveFeed.TellingTextsAgreeIff`). When besides no message's handling raised and every text is read
  back whole, it is enough that no text that carries a payload arrived twice, and the proviso is not needed
  (`LiveFeed.UnraisedFeedAgreesIff`).
* The bronze writer promises to land exact messages. A message with a raw U+2028 in it, which JSON
  permits, is read back as two lines (`Ndjson.RawSeparatorTearsLine`); `BronzeLanding.LandingIsLosslessIff`
  says exactly when a run loses nothing, and `BronzeLanding.LandingIsPieces` what is read otherwise.
* The SQL test is described as the counterpart of the reconciler's gap check. It never sees a gap that
  straddles an hour (`SqlGapTest.CleanQueryMissesBoundaryGap`), and a late timestamp makes it report one
  that does not exist (`SqlGapTest.LateTimestampBreaksAgreement`). `SqlGapTest.ReportsOnlyGapsIff` and
  `SqlGapTest.ChecksAgreeIff` give the exact conditions for any timestamps.
* The load harness calls a step caught up when the lag is zero. Entries that were read and not yet written
  do not count as lag (`DeliveryCounts.CaughtUpIsNotStored`); for calm workers a caught-up group has stored
  everything exactly when no worker is between reading and writing (`DeliveryCounts.CaughtUpIsStoredIff`).
* The sensor's docstring calls its cursor the set of partitions already requested. The code stores the set
  available last time, so one that vanishes and returns is requested again
  (`Sensor.ReappearingIsRequestedAgain`); a partition is requested at most once exactly when it never returns
  after vanishing (`Sensor.RequestedAtMostOnceIff`).
* Sequence numbers are meant to make every loss visible. Numbering restarts at 1 with every ingestor, and a
  written message of one hides the loss of another's with the same number
  (`DeliveredFeed.RestartHidesLosses` shows the same loss with and without a restart).
  `DeliveredFeed.LossIsReportedIff` and `DeliveredFeed.EveryLossShowsIff` say exactly when a loss between stored
  numbers shows; a single ingestor hides none (`DeliveredFeed.OneIngestorShowsEveryLoss`).

## Model

| member | source | states |
|---|---|---|
| SequenceGaps.ScanIsExact | src/posttrade/reconcile/reconciler.py:117-119 | The adjacent-pair scan finds exactly the maximal runs of missing integers, and nothing else |
| SequenceGaps.ScanDependsOnlyOnTheSet | src/posttrade/reconcile/reconciler.py:115-119 | The gaps depend on the set of stored sequences only, not on row order or repeats |
| SequenceGaps.GapListIsExact | src/posttrade/reconcile/reconciler.py:118-128 | The reported gaps are the maximal missing runs, in order, without overlap |
| SequenceGaps.ReportedMissingIsInterior | src/posttrade/reconcile/reconciler.py:119-125 | The lengths of the gaps add up to the absent numbers between smallest and largest, which is max - min + 1 - distinct count |
| SequenceGaps.HoleLiesInAGap | src/posttrade/reconcile/reconciler.py:118-119 | Every absent number inside the stored range lies in a reported run |
| SequenceGaps.GapsDoNotOverlap | src/posttrade/reconcile/reconciler.py:118-119 | No absent number lies in two runs |
| SequenceGaps.NothingReportedIffContiguous | src/posttrade/reconcile/reconciler.py:115-129 | No gap is reported exactly when the stored numbers form one contiguous block |
| SqlGapTest.QueryIsExactPerHour | dbt/tests/assert_sequence_contiguous_per_symbol_hour.sql:7-28 | Per symbol and hour the query returns exactly the missing runs of that hour's set of sequences |
| SqlGapTest.ReconcilerIsQueryPlusStraddling | dbt/tests/assert_sequence_contiguous_per_symbol_hour.sql:1-28 | When hours do not decrease along sequences, the reconciler's gaps are the query's rows and, disjointly, the gaps across an hour boundary |
| SqlGapTest.CleanQueryMissesBoundaryGap | dbt/tests/assert_sequence_contiguous_per_symbol_hour.sql:13-16 | A feed whose only hole is at an hour boundary passes the query and fails the reconciler |
| SqlGapTest.LateTimestampBreaksAgreement | dbt/tests/assert_sequence_contiguous_per_symbol_hour.sql:13-28 | One late timestamp makes the query report a gap that the reconciler does not |
| SqlGapTest.ReportsOnlyGapsIff | dbt/tests/assert_sequence_contiguous_per_symbol_hour.sql:7-28 | For any timestamps: every row of the query is a gap of the reconciler if and only if no sequence stored only in other hours lies strictly between two sequences of one hour |
| SqlGapTest.ChecksAgreeIff | dbt/tests/assert_sequence_contiguous_per_symbol_hour.sql:1-28 | For any timestamps: the two checks report the same gaps if and only if, besides, every real gap has both ends in some one hour |
| Stores.TickStore.DeleteSequences | src/posttrade/storage/timeseries_store.py:116-128 | Deletes exactly the symbol's rows with those sequences and returns the sequence of each deleted row |
| Stores.TickStore.ReadTicks | src/posttrade/storage/timeseries_store.py:130-141 | Returns exactly the symbol's rows in the closed time range, by time |
| Stores.BookStore.WriteFill | src/posttrade/storage/book_store.py:55-77 | Appends the fill unless its id is already stored |
| Stores.BookStore.ReadFills | src/posttrade/storage/book_store.py:131-135 | Returns exactly the symbol's fills in the closed time range, by time |
| Stores.BookStore.ReadPositions | src/posttrade/storage/book_store.py:137-141 | Returns exactly the symbol's snapshots in the closed time range, by time |
| Reconciliation.Reconciler.NearestDelta | src/posttrade/reconcile/reconciler.py:54-57 | The nearest delta is within any window exactly when some tick is |
| Reconciliation.Reconciler.FindUnmatchedFills | src/posttrade/reconcile/reconciler.py:47-71 | One break, in row order, per fill without a tick in the window: dated by the fill, naming it and the window |
| Reconciliation.UnmatchedMeansFar | src/posttrade/reconcile/reconciler.py:57-58 | A fill is unmatched exactly when every tick is farther away than the window; one at its edge still matches |
| Reconciliation.UnmatchedBreaksFlag | src/posttrade/reconcile/reconciler.py:52-70 | A fill id is flagged exactly when a row of it has no tick within the window |
| Ledger.CumulativeIsSumUpTo | src/posttrade/reconcile/reconciler.py:81-87 | The running sum at a fill, over rows sorted by sequence, is the signed sum of all fills executed up to it, in any row order |
| Reconciliation.Reconciler.FindPositionDrift | src/posttrade/reconcile/reconciler.py:73-109 | The breaks are those of the running sums over some sort by execution sequence, one per snapshot that is off, dated by it and printing both amounts; the time column plays no part |
| Reconciliation.DriftedFromSums | src/posttrade/reconcile/reconciler.py:78-96 | With identified rows, flagged fills are exactly those whose snapshot differs from the sum of earlier executions by more than the tolerance, however ties were sorted |
| Reconciliation.Reconciler.SequenceTimes | src/posttrade/reconcile/reconciler.py:115-116 | Maps exactly the stored sequences, each to the time of a row that carries it |
| Reconciliation.Reconciler.FindSequenceGaps | src/posttrade/reconcile/reconciler.py:111-129 | One break per maximal missing run, in order, dated by a tick that ends the run; the sequences named are exactly the absent numbers right above a stored one that is not the largest |
| Reconciliation.GapBreaksNameFirst | src/posttrade/reconcile/reconciler.py:118-128 | Breaks that print the gaps of a set name exactly its first missing numbers |
| Reconciliation.FarIsFounded | src/posttrade/reconcile/reconciler.py:52-70 | Whatever order the rows were read in: every unmatched break is founded on a stored fill without a tick in the window, and there are as many as such fills |
| Reconciliation.OffIsFounded | src/posttrade/reconcile/reconciler.py:81-108 | Every drift break is founded on a stored snapshot and prints its quantity and, with identified rows, the sum of the executions up to its fill; there are as many as snapshots that are off |
| Reconciliation.Reconciler.ReconcileSymbol | src/posttrade/reconcile/reconciler.py:30-39 | Over the widened fill and tick windows and the plain position window: exactly the unmatched fills, the drifted snapshots and the missing runs; each break says what rows it was found in, they are as many as the rows call for, and the sequences named are the first missing ones |
| Reconciliation.Reconciler.ReconcileAll | src/posttrade/reconcile/reconciler.py:41-45 | The same over all listed symbols together, each break founded on its own symbol's rows |
| Simulation.TradeBookSimulator.TrackSequence | src/posttrade/simulate/trade_book_simulator.py:85-89 | Remembers the newest fifty sequences of the symbol |
| Simulation.TradeBookSimulator.ApplyFill | src/posttrade/simulate/trade_book_simulator.py:154-158 | Moves the true position by the signed quantity |
| Simulation.TradeBookSimulator.WritePosition | src/posttrade/simulate/trade_book_simulator.py:160-171 | Appends a snapshot of the true or the overriding quantity and changes nothing else |
| Simulation.TradeBookSimulator.WriteSnapshot | src/posttrade/simulate/trade_book_simulator.py:122-149 | An unmatched fill is only logged; a drift is logged and drifts its one snapshot; any other fill gets a true snapshot |
| Simulation.TradeBookSimulator.PlantSequenceGap | src/posttrade/simulate/trade_book_simulator.py:173-190 | Deletes up to three neighbours among the remembered sequences and logs their span if a row was deleted |
| Simulation.TradeBookSimulator.GenerateFill | src/posttrade/simulate/trade_book_simulator.py:91-152 | Performs the trade step on both stores: book the fill, log what was planted, write one snapshot unless the fill is unmatched, plant a gap |
| Simulation.TradeBookSimulator.Run | src/posttrade/simulate/trade_book_simulator.py:60-83 | Acknowledges exactly the messages it acted on, a prefix of those read, and all of them when there is no limit; stops right after the trade that reaches the fill limit or at the first read that completes the idle limit, and not before; returns the fills emitted; the stores end as that run of trades leaves them |
| Simulation.TradeBookSimulator.HandleBatch | src/posttrade/simulate/trade_book_simulator.py:73-79 | Stops right after the trade that reaches the fill limit and not before |
| SimulatedBook.EveryRunKeepsBook | src/posttrade/simulate/trade_book_simulator.py:91-171 | In every run a symbol's fills are numbered 1, 2, 3, ...; the snapshots belong one to one, in order, to the fills that are not unmatched and hold the true position plus the logged drift, at the fill's time and price; the log names exactly the tampered fills; the counters match |
| SimulatedBook.FillsComeFromTicks | src/posttrade/simulate/trade_book_simulator.py:92-120 | Every fill carries the symbol and price of a tick it traded on, the drawn id and quantity, and the tick's time, fifteen minutes later or earlier as drawn exactly if it is unmatched |
| SimulatedTrades.EveryRunTrades | src/posttrade/simulate/trade_book_simulator.py:91-120 | In every run there is one fill per trade, in the order of the trades, with order numbers 1, 2, 3, ... over all symbols |
| SimulatedTrades.EveryRunFollowsPrices | src/posttrade/simulate/trade_book_simulator.py:92-94 | In every run, per symbol, the first fill buys, and every later one buys exactly if its price is not below that of the fill before |
| SimulatedTrades.EveryRunRemembers | src/posttrade/simulate/trade_book_simulator.py:85-89 | In every run the remembered sequences of a symbol are the newest fifty observed |
| SimulatedTrades.EveryRunLogsTrades | src/posttrade/simulate/trade_book_simulator.py:122-190 | In every run each log entry tells what one trade planted, with its symbol, time, fill and drawn drift, and the counter of each kind is the number of its entries |
| SimulatedTrades.TradeDeletesStretch | src/posttrade/simulate/trade_book_simulator.py:151-178 | A trade that plants a gap deletes the stored rows of one stretch of the newest fifty sequences, the current one included; any other deletes nothing |
| SimulatedTrades.PlantDeletesStretch | src/posttrade/simulate/trade_book_simulator.py:173-190 | The stretch has one to three neighbours and leaves out the last; if a row went, one entry logs the smallest and the largest sequence that went |
| SimulatedTrades.EveryStretchCanBeChosen | src/posttrade/simulate/trade_book_simulator.py:177-178 | Every such stretch can be chosen |
| SimulatedBook.RunBehind | src/posttrade/simulate/trade_book_simulator.py:50-58 | An instance does to an earlier book exactly what it does to an empty one, behind what is there |
| AnomalyDetection.ReadIsWellKeyed | src/posttrade/simulate/trade_book_simulator.py:98-99 | In whatever window is read, fill ids and execution sequences each identify a row |
| AnomalyDetection.DriftReportedExactly | src/posttrade/reconcile/reconciler.py:30-108 | For any window: a fill is flagged exactly when it has a snapshot, both were read, and its logged drift plus the dropped earlier fills exceeds the tolerance |
| AnomalyDetection.UnmatchedFillNeverDrifts | src/posttrade/simulate/trade_book_simulator.py:122-132 | Whatever the window dropped, an unmatched fill is never reported as a drift |
| AnomalyDetection.UnreadBookIsHarmless | src/posttrade/reconcile/reconciler.py:31-33 | Earlier rows change nothing that is reported when no earlier fill of the symbol is read and no earlier snapshot names a new fill |
| AnomalyDetection.OnlyFillsAreReported | src/posttrade/reconcile/reconciler.py:89-93 | No id outside the stored fills of the symbol is ever reported as a drift |
| AnomalyDetection.DriftBreaksArePlanted | src/posttrade/reconcile/reconciler.py:73-109 | When the window covers the book, the drift breaks are exactly the planted drifts |
| AnomalyDetection.UnmatchedReportedExactly | src/posttrade/reconcile/reconciler.py:30-71 | A fill is flagged exactly when it was read and no read tick is near its recorded time |
| AnomalyDetection.UnmatchedBreaksArePlantedIff | src/posttrade/simulate/trade_book_simulator.py:101-132 | When all fills are read, flagged ids equal planted ids if and only if every shifted time is clear of ticks and every other fill has one near |
| AnomalyDetection.ShortFeedIsClear | src/posttrade/simulate/trade_book_simulator.py:101-104 | When every stored tick is closer than fifteen minutes less the window to every tick traded on, no shift lands near a tick |
| AnomalyDetection.LaterTickHidesPlantedFill | src/posttrade/simulate/trade_book_simulator.py:103-104 | In a longer feed a tick fifteen minutes later hides a planted fill |
| SimulatorRestart.DriftOverEarlierBook | src/posttrade/simulate/trade_book_simulator.py:50-55 | The drift result of one instance holds over any earlier book of which no fill of the symbol is read |
| SharedBook.ReportedUnderSort | src/posttrade/reconcile/reconciler.py:81-96 | With any number of instances and under any one sort, a fill is reported exactly when it has a snapshot and its logged drift differs by more than the tolerance from what the other instances' fills sorted before it add up to |
| SharedBook.TiesBreakAnyWay | src/posttrade/reconcile/reconciler.py:81 | Sorting by sequence can put any chosen set of a fill's equals before it and the others after |
| SharedBook.OnlyPlantedIff | src/posttrade/reconcile/reconciler.py:73-109 | Every sort of a shared book reports exactly the planted drifts if and only if, for every fill with a snapshot and any choice of the others' fills with its sequence, its drift differs by more than the tolerance from what the others then put before it exactly when it was planted |
| SharedBook.SilentIff | src/posttrade/reconcile/reconciler.py:73-109 | Without planted drifts that condition comes down to: at every snapshot each other instance had made fewer trades and these cancel out |
| SimulatorRestart.RestartReportsPlantedIff | src/posttrade/reconcile/reconciler.py:73-109 | For any number of instances, whatever they traded and planted, and a window over the whole book: every sort reports exactly the logged drifts if and only if no fill with a snapshot can be taken for another kind by what the other instances have sorted before it |
| SimulatorRestart.TwoTradesLookLikeDrift | src/posttrade/simulate/trade_book_simulator.py:50-55 | Two plain trades of two instances on one symbol: nothing is planted and every sort reports one of them |
| SimulatorRestart.RestartIsSilentIff | src/posttrade/reconcile/reconciler.py:73-109 | For any number of instances, trades, unmatched fills and gaps without planted drift: no sort reports a drift if and only if, at every snapshot, each other instance had made fewer trades of the symbol and these cancel out |
| SimulatorRestart.RestartLooksLikeDriftIff | src/posttrade/simulate/trade_book_simulator.py:50-55 | When every instance that traded wrote a snapshot: no sort reports a drift if and only if at most one instance traded the symbol |
| SharedBook.UnmatchedOnlyIsSilent | src/posttrade/simulate/trade_book_simulator.py:122-132 | Instances whose fills are all unmatched are silent together, however many they are |
| PlantedGaps.CountIsRunStarts | src/posttrade/reconcile/reconciler.py:118-119 | The number of gaps is the number of stored numbers that open a run |
| PlantedGaps.DeletionAddsAtMostOneRun | src/posttrade/simulate/trade_book_simulator.py:177-179 | Deleting a stretch below a stored number adds at most one gap |
| PlantedGaps.AdjacentPlantsMerge | src/posttrade/report/report.py:154-158 | Two plants that touch are one reported run |
| PlantedGaps.ChosenIsAStretchBelowNewest | src/posttrade/simulate/trade_book_simulator.py:174-178 | A plant picks one to three consecutive remembered sequences, never the newest |
| PlantedGaps.PlantedGapsAreReported | src/posttrade/simulate/trade_book_simulator.py:173-190 | Over any run of plants, reported runs number at most the logged events, the top is never deleted, and every deleted number is in a reported run or below all stored ones |
| BreakReport.ScoreAddsUp | src/posttrade/report/report.py:139-142 | Hits and misses add up to the planted ids, hits and false alarms to the found ids |
| BreakReport.ScoreIsPerfectIff | src/posttrade/report/report.py:135-144 | Precision and recall are both 1 exactly when the found ids are the planted ids and there is one; each is NaN exactly when its set is empty |
| BreakReport.RatesAreShares | src/posttrade/report/report.py:139-143 | Precision times the number of found ids, and recall times the number of planted ids, is the number of ids that are both |
| BreakReport.GapEventsAreCounted | src/posttrade/report/report.py:147 | Each logged gap event counts once |
| BreakReport.GenerateBreakReport | src/posttrade/report/report.py:99-152 | Counts all breaks, scores exactly the flagged ids of the listed symbols against the log, counts gap events and runs, and has no scores when nothing was planted |
| PlantedRoundTrip.SimulateAndReport | src/posttrade/report/report.py:105-149 | One instance over an empty book, then the report: if the window covers the book, drift precision and recall are perfect; if the ticks tell the shifts, or the span of the feed does, so are those of unmatched fills; if the feed was whole, found gap runs number at most the planted events |
| PlantedRoundTrip.ShortSpanIsClear | src/posttrade/simulate/trade_book_simulator.py:103-104 | A feed of short span tells the shifts, since a run only deletes ticks |
| PlantedRoundTrip.RunsWithinEvents | src/posttrade/report/report.py:148-158 | Over distinct listed symbols whose ticks were whole, found runs number at most the logged gap events |
| Ingestor.AsyncIngestor.NormalizeMessage | src/posttrade/ingest/async_ingestor.py:118-157 | An accepted message takes its symbol's next number, and so does one that the tick's own validation refuses; one rejected or raising before takes none |
| DeliverySafety.StepKeepsInvariant | src/posttrade/queue/redis_stream.py:24-162 | Every step keeps: delivered entries split into pending and acknowledged, held entries match the stream, rows match their message, acknowledged entries have a row |
| DeliverySafety.EveryRunKeepsInvariant | src/posttrade/workers/worker.py:71-115 | The same after every run, with any crashes, caps and reclaims |
| DeliverySafety.ApplyExtends | src/posttrade/queue/redis_stream.py:119-158 | Stream and table only grow, cursors only advance, no worker changes its group |
| DeliverySafety.AcknowledgedIsStored | src/posttrade/workers/worker.py:88-91 | Whatever a group acknowledged was written by one of its workers |
| DeliveryCounts.GroupConserves | src/posttrade/queue/redis_stream.py:119-162 | Published = lag + pending + acknowledged, per group |
| DeliveryCounts.GroupsAreIndependent | src/posttrade/queue/redis_stream.py:24-30 | A step of one group leaves every other group's cursor, pending list and acknowledgements alone |
| DeliveryCounts.RowsBoundedByReclaims | src/posttrade/queue/redis_stream.py:135-150 | A group's rows for a message never exceed one more than its reclaims, whatever crashed |
| DeliveryCounts.CrashAfterWriteDuplicates | src/posttrade/workers/worker.py:88-91 | The bound is reached: a crash between write and acknowledgement and one reclaim give two rows |
| DeliveryCounts.DeliveredOnce | src/posttrade/workers/worker.py:34-35 | Without reclaims a delivered message is written once, held by one worker, or still pending |
| DeliveryCounts.DrainedExactlyOnce | src/posttrade/workers/worker_pool.py:19-46 | Without reclaims, once lag and pending are zero, every message has one row and return values add up to the published count |
| DeliveryCounts.CaughtUpBound | src/posttrade/loadtest/load_harness.py:229-248 | With W calm workers reading at most B, a lag of zero means at most W * B pending and at least published - W * B stored |
| DeliveryCounts.CalmDrainExactlyOnce | src/posttrade/workers/worker.py:71-115 | With no crash, cap or reclaim and nobody between reading and writing, a lag of zero means every message is stored exactly once and return values add up to what is not still pending |
| DeliveryCounts.CaughtUpIsNotStored | src/posttrade/loadtest/load_harness.py:248 | A lag of zero alone is reachable with an empty table |
| DeliveryCounts.StoredAtZeroLagIff | src/posttrade/loadtest/load_harness.py:248 | After any run with a lag of zero, every message is stored if and only if every pending one is |
| DeliveryCounts.CaughtUpIsStoredIff | src/posttrade/loadtest/load_harness.py:248 | For calm workers and a lag of zero, every message is stored if and only if no worker is between reading a batch and writing it |
| DeliveryOrder.EveryRunNumbers | src/posttrade/ingest/async_ingestor.py:144 | Every tick in the stream carries the number of ticks of its symbol that its ingestor had published by then, itself included; a new ingestor starts again at 1 |
| DeliveryOrder.NumberingFollowsStream | src/posttrade/ingest/async_ingestor.py:144 | Within a symbol, the numbers of one ingestor grow strictly along the stream and start at 1 |
| DeliveryOrder.NumberIsCarried | src/posttrade/ingest/async_ingestor.py:144 | Every number up to the count that one ingestor published is carried by a message of it |
| DeliveryOrder.NumbersGrowPerIngestor | src/posttrade/ingest/async_ingestor.py:57 | Among one ingestor's messages of a symbol, later in the stream is higher in sequence |
| DeliveryOrder.LowerNumbersCameBefore | src/posttrade/ingest/async_ingestor.py:144 | Below every number, its ingestor gave out all lower ones earlier in the stream |
| DeliveryOrder.RunKeepsOrder | src/posttrade/workers/worker.py:73-91 | Without reclaims each worker's rows are in stream order and before what it holds |
| DeliveryOrder.DeliveredPrefixIsShuffled | src/posttrade/queue/redis_stream.py:119-133 | Without reclaims every delivered message is in exactly one place: one row, one worker's hands, or stranded |
| DeliveryOrder.SequenceOrderSurvives | src/posttrade/workers/worker.py:88-90 | Without reclaims a worker's rows of one symbol and one ingestor have increasing sequences |
| DeliveryOrder.CutTailIsStranded | src/posttrade/workers/worker.py:84-91 | What a message cap cuts off is pending, unwritten and held by nobody |
| DeliveryOrder.CrashStrandsBatch | src/posttrade/queue/redis_stream.py:135-141 | Without reclaims, a batch held by a crashing worker is stranded |
| DeliveryOrder.StrandedUntilReclaimed | src/posttrade/workers/worker.py:71-115 | A stranded message is never written in any continuation without a reclaim |
| DeliveryOrder.SignalledWritesNoMore | src/posttrade/workers/worker.py:64-72 | A worker told to stop between batches, like one that stopped or crashed, never writes again in any continuation |
| DeliveryOrder.SignalLeaves | src/posttrade/workers/worker.py:64-72 | A signal between batches makes a worker leave; one that was not signalled goes on to read |
| DeliveryOrder.ClaimTakesOver | src/posttrade/queue/redis_stream.py:135-150 | A reclaim hands out exactly the reclaimed messages in stream order, makes the worker their owner and changes nothing else |
| DeliveredFeed.StoredIffWritten | src/posttrade/workers/worker.py:88-90 | A number is stored exactly when a message that carries it was written |
| DeliveredFeed.MissingIsNeverWritten | src/posttrade/reconcile/reconciler.py:111-129 | After any run, restarts included, the total the reconciler reports missing is how many numbers between the smallest and largest stored one were given out of which no message was written |
| DeliveredFeed.MissingIsOutstanding | src/posttrade/queue/redis_stream.py:135-150 | Every message with a missing number is undelivered or pending in every group |
| DeliveredFeed.GapsArePendingEntries | src/posttrade/reconcile/reconciler.py:111-129 | When one group feeds the table, every number inside a gap is a pending entry of that group: lag alone never shows |
| DeliveredFeed.DrainedFeedHasNoGap | src/posttrade/reconcile/reconciler.py:111-129 | A group with no lag and nothing pending means 1 up to the symbol's highest number is stored and no gap is reported |
| DeliveredFeed.RedeliveryAddsNoBreak | src/posttrade/workers/worker.py:90-91 | Writing again what is stored changes no gap |
| DeliveredFeed.LossIsReportedIff | src/posttrade/reconcile/reconciler.py:111-129 | A message never written, with a number between stored ones, is reported if and only if no other message with its number was written; only another ingestor's can be |
| DeliveredFeed.EveryLossShowsIff | src/posttrade/ingest/async_ingestor.py:57 | Over any run and any restarts: every loss between stored numbers is reported if and only if none of them shares its number with a written message |
| DeliveredFeed.OneIngestorShowsEveryLoss | src/posttrade/ingest/async_ingestor.py:57 | While the first ingestor is not replaced, every loss between stored numbers is reported |
| DeliveredFeed.RestartHidesLosses | src/posttrade/ingest/async_ingestor.py:57 | Five ticks of which nobody writes the fourth: reported with one ingestor, hidden with a restart after two ticks |
| DeliveredFeed.NothingReportedIff | src/posttrade/reconcile/reconciler.py:111-129 | The reconciler reports nothing if and only if of every number between the smallest and largest stored one some message was written, whichever ingestor gave it out |
| DeliveredFeed.ReconcileFeed | src/posttrade/reconcile/reconciler.py:30-39 | The reconciler, run on the table of any run, reports those gaps and none when a group has drained |
| RedisStream.StreamConsumer.constructor | src/posttrade/queue/redis_stream.py:24-30 | Creates the group at the start of the stream unless it exists |
| RedisStream.StreamConsumer.Read | src/posttrade/queue/redis_stream.py:119-133 | Hands out the next entries nobody in the group was given, as many as there are up to `count`, and makes exactly these pending under this consumer |
| RedisStream.StreamConsumer.ClaimStale | src/posttrade/queue/redis_stream.py:135-150 | Takes over the first `count` stale pending entries in stream order, whoever owned them: all of them if there is room, and otherwise none after one left behind |
| RedisStream.StreamConsumer.AckBatch | src/posttrade/queue/redis_stream.py:155-158 | Moves exactly the pending ones of the given ids to acknowledged; an empty list changes nothing |
| WorkerLoop.ReadBatch | src/posttrade/workers/worker.py:73-86 | Read, idle count and cap cut are the protocol's read step; an empty read adds one to the idle count and stops at its limit, and of what was read the worker keeps as much as its cap has room for |
| WorkerLoop.AcknowledgeBatch | src/posttrade/workers/worker.py:91-110 | Acknowledgement, counting and the cap check are the protocol's acknowledge step: exactly the batch leaves the pending entries, and the worker goes on exactly if it was running and is below its cap; an empty batch raises |
| WorkerLoop.OthersRan | src/posttrade/workers/worker.py:64-72 | Whatever happens elsewhere, a stop signal included, changes nothing of a worker but its running flag |
| WorkerLoop.RunWorker | src/posttrade/workers/worker.py:49-115 | Among other processes the loop is a protocol run of its own enabled actions; it returns what it processed, never above the cap, and raises only for a cap of zero |
| LoadHarness.PublishProcess | src/posttrade/loadtest/load_harness.py:85-104 | Only whole batches are published; at a positive rate all but the last fit into rate times duration, and the process is behind its schedule only by the time that publishing, oversleeping and the rest of its turns took |
| LoadHarness.ProcessesStayPaced | src/posttrade/loadtest/load_harness.py:177-219 | Processes sharing a target publish at most target times duration plus one batch each |
| LoadHarness.RunStep | src/posttrade/loadtest/load_harness.py:225-250 | Every sample, the step-end reading and the last reading are the group's lag after exactly the turns that had passed; grace sampling stops at the first zero, the maximum is one of the samples and bounds them all; a caught-up verdict over calm workers means at most W * B messages without a row, and none exactly when no worker holds a batch |
| LoadHarness.LagCountsUndelivered | src/posttrade/loadtest/load_harness.py:60-64 | The lag read is the number of published messages that are neither pending nor acknowledged in the group |
| LoadHarness.VerdictBoundsLoss | src/posttrade/loadtest/load_harness.py:55-65 | A zero lag over calm workers gives that bound and that exact condition |
| LoadHarness.ZeroLagIff | src/posttrade/loadtest/load_harness.py:55-65 | The harness reads zero exactly when the group does not exist or was given every published message |
| LoadHarness.MissingGroupHasNoRow | src/posttrade/loadtest/load_harness.py:56-65 | A group that does not exist reads as caught up and has no row |
| Ndjson.RoundTripIff | src/dataeng/bronze/bronze_writer.py:74 | Lines come back unchanged exactly when none is blank and none holds a line boundary |
| Ndjson.ReadBody | src/dataeng/silver/silver_transform.py:63-64 | Whatever the lines hold, an object is read as the pieces of its lines, one line after another |
| Ndjson.ReadLinesSurvive | src/dataeng/silver/silver_transform.py:63-64 | Only non-blank lines without boundaries are ever read |
| Ndjson.RawSeparatorTearsLine | src/dataeng/silver/silver_transform.py:64 | A line with a raw U+2028 is read as two |
| Ndjson.BoundaryTable | src/dataeng/silver/silver_transform.py:63-64 | The code points at which lines are split and those that are stripped; every boundary is also stripped |
| Partitions.DiscoverBronzePartitions | src/dataeng/discovery.py:11-23 | Finds exactly the pairs that some object key yields |
| Partitions.DiscoveredIff | src/dataeng/discovery.py:14-22 | A key yields its own symbol and date exactly when the symbol is not empty and has no slash |
| Partitions.ListedByOwnRebuildOnly | src/dataeng/silver/silver_transform.py:87-90 | An object is listed by the rebuild of its own symbol and date and by no other |
| Bronze.BronzeWriter.Append | src/dataeng/bronze/bronze_writer.py:44-52 | Buffers the line under its hour's partition; below the limit nothing is put, at the limit the whole buffer is put as one object and stays buffered exactly if the put fails |
| Bronze.BronzeWriter.FlushDue | src/dataeng/bronze/bronze_writer.py:54-66 | Puts the buffers that reached the age limit, in order, until a put fails; younger buffers are left alone, and if no put fails each aged one is one new object |
| Bronze.BronzeWriter.FlushAll | src/dataeng/bronze/bronze_writer.py:68-84 | Puts every buffer in order until a put fails; if none fails, each was put as one new object and nothing is buffered |
| Bronze.AppendLeavesRoom | src/dataeng/bronze/bronze_writer.py:50-52 | An append that returns leaves its buffer below the limit; one that raises keeps the line buffered |
| Bronze.AppendAppends | src/dataeng/bronze/bronze_writer.py:44-52 | What an append does to its buffer, the objects and the counters, below the limit and at it |
| Bronze.FlushEachPuts | src/dataeng/bronze/bronze_writer.py:70-84 | A flush that returns put each of its nonempty buffers as one object, in turn, counted each, and left the other buffers alone |
| BronzeLanding.EveryRunIsValid | src/dataeng/bronze/bronze_writer.py:36-81 | In every run a start time exists exactly for the buffers that hold lines |
| BronzeLanding.BuffersAreBounded | src/dataeng/bronze/bronze_writer.py:50-52 | In every run a buffer is below the limit plus its failed appends |
| BronzeLanding.NoBufferedLineIsOld | src/dataeng/bronze/bronze_writer.py:54-66 | A buffer holds the newest lines of its partition; after an age flush that returned, none of them is as old as the limit, if the clock does not go back |
| BronzeLanding.CountersAddUp | src/dataeng/bronze/bronze_writer.py:77-80 | Flushed plus buffered lines are the appended lines, whatever failed |
| BronzeLanding.EveryRunAccounts | src/dataeng/bronze/bronze_writer.py:68-81 | In every run, for a prefix that splits no partition: what landed and what is buffered under it are the pieces of all appended lines, nothing else, and each as often when no failed put had landed |
| BronzeLanding.FlushAllLeavesNothing | src/dataeng/bronze/bronze_writer.py:83-84 | A final flush that returns leaves nothing buffered |
| BronzeLanding.LandingIsPieces | src/dataeng/silver/silver_transform.py:87-91 | With nothing buffered and in any listing order, what is read for a symbol and date are the pieces of the lines appended there, whatever they hold |
| BronzeLanding.LandingIsLosslessIff | src/dataeng/silver/silver_transform.py:87-91 | These are the appended lines themselves, each as often when no failed put had landed, if and only if every line appended there survives the round trip |
| BronzeLanding.ReadBronzeLines | src/dataeng/silver/silver_transform.py:59-65 | Reads the non-blank lines of the listed objects, in listing order |
| BronzeLanding.OnlySurvivorsAreRead | src/dataeng/silver/silver_transform.py:59-65 | A line that is blank or holds a boundary is never read from any objects |
| BronzeLanding.ReadAllPermutes | src/dataeng/silver/silver_transform.py:49-65 | The multiset of lines read does not depend on the listing order |
| Silver.DropRepeats | src/dataeng/silver/silver_transform.py:94-101 | Keeps the first occurrence of each line, in order, and counts the rest |
| Silver.RepeatIsDropped | src/dataeng/silver/silver_transform.py:94-101 | A repeat inserted anywhere after a first occurrence changes nothing |
| Silver.DedupSelects | src/dataeng/silver/silver_transform.py:94-101 | The kept lines are the distinct lines, each once |
| Silver.RowsAreNumbered | src/dataeng/silver/silver_transform.py:103-115 | Each product's rows are numbered 1, 2, 3, ... in order with rejected lines consuming no number, and rows plus failures are the lines normalized |
| Silver.NormalizeLines | src/dataeng/silver/silver_transform.py:103-115 | Normalizes line by line with one fresh ingestor and stops at the first line that raises |
| Silver.BuildTable | src/dataeng/silver/silver_transform.py:133-146 | Raises exactly when some row's price or size is not a multiple of 10^-8 below 10^10 |
| Silver.FitsIffDigits | src/dataeng/silver/silver_transform.py:27 | An amount of n times 10^-8 fits the column exactly when n is written with at most eighteen digits |
| Silver.FitsIffOrdinary | src/dataeng/silver/silver_transform.py:27 | An amount fits exactly when it is below 10^10 and has at most eight decimals |
| Silver.OrdinaryRowsAreWritten | src/dataeng/silver/silver_transform.py:117-151 | A rebuild whose lines give only such amounts, and none of which raises, leaves exactly their rows |
| Silver.TransformSymbolDate | src/dataeng/silver/silver_transform.py:68-153 | Returning: lines read = repeats + failures + rows, and the partition holds one file of those rows or none. Raising during normalization: no file changed. Raising in the table: the partition is empty |
| Silver.OneFilePerPartitionIff | src/dataeng/silver/silver_transform.py:117-151 | After any sequence of rebuilds a partition holds at most one file, and exactly the rows of its last completed rebuild if and only if none since raised after clearing it or there was no row to lose |
| Silver.NinthDecimalLosesPartition | src/dataeng/silver/silver_transform.py:21-27 | A price with nine decimals, arriving after a good rebuild, leaves the partition empty |
| Silver.GoldCountsLastRowsIff | src/dataeng/silver/silver_transform.py:117-127 | The row count over all part-files never exceeds what the last completed rebuilds wrote, and equals it if and only if no partition with rows was cleared since |
| LiveFeed.Feed.HandleMessage | src/posttrade/ingest/async_ingestor.py:96-116 | A message of another kind than ticker, match or last_match is ignored; one of these that names a product is landed first, then normalized, then published; a failing landing publishes nothing |
| LiveFeed.EveryRelevantMessageLands | src/posttrade/ingest/async_ingestor.py:102-112 | Whatever normalization does, the writer is given every relevant message that names a product |
| LiveFeed.NormalizingKeepsPayloads | src/dataeng/silver/silver_transform.py:78-83 | Normalizing a list raises exactly when a line does, and otherwise keeps every payload |
| LiveFeed.LivePublishesWhatWasHandled | src/posttrade/ingest/async_ingestor.py:107-115 | The live run publishes exactly the payloads of the messages whose handling did not raise |
| LiveFeed.ReplayIsWhatArrived | src/dataeng/silver/silver_transform.py:68-115 | Whatever appends, flushes and puts failed: a rebuild normalizes the distinct pieces of everything that arrived for the symbol and date, and raises exactly when one of them does |
| LiveFeed.DistinctCarryAllIff | src/dataeng/silver/silver_transform.py:94-101 | Dropping repeats loses no payload if and only if no text that carries one repeats |
| LiveFeed.ReplayAgreesWithLiveIff | src/dataeng/silver/silver_transform.py:74-83 | Whatever failed and whatever the texts hold: the rebuild returns with the payloads the live run published, each as often, if and only if nothing read raises and the texts only the rebuild reads carry the same as those only the live run handled |
| LiveFeed.TellingTextsAgreeIff | src/dataeng/silver/silver_transform.py:74-83 | When no two texts carry the same payload: they agree if and only if nothing read raises, the carrying texts read are the carrying texts handled, and none was handled twice |
| LiveFeed.UnraisedFeedAgreesIff | src/dataeng/silver/silver_transform.py:94-101 | When no message's handling raised and every text survives: they agree if and only if no text that carries a payload arrived twice |
| LiveFeed.RepeatedTextIsReplayedOnce | src/dataeng/silver/silver_transform.py:94-101 | A priced text that arrives twice is published twice and replayed once |
| LiveFeed.RaisedMessageIsReplayed | src/dataeng/bronze/run_bronze_ingestor.py:21-25 | A message whose put failed is not published; the final flush lands it and a rebuild has its tick |
| Sensor.CursorReadsBackIff | src/dataeng/orchestration/sensors.py:15-24 | The cursor reads back as written exactly when names hold no comma and symbols no bar |
| Sensor.RequestedIffNew | src/dataeng/orchestration/sensors.py:15-22 | A partition is requested exactly when it is available and was not the time before |
| Sensor.RequestedExactlyOnce | src/dataeng/orchestration/sensors.py:15-24 | While bronze only grows, every partition is requested exactly once, when it first shows |
| Sensor.RequestedAtMostOnceIff | src/dataeng/orchestration/sensors.py:15-24 | Over any listings a partition is requested at most once if and only if it never returns after vanishing |
| Sensor.ReappearingIsRequestedAgain | src/dataeng/orchestration/sensors.py:24 | A partition that vanishes and comes back is requested twice |

## Left out

- The websocket connection, reconnect backoff, asyncio scheduling, process spawning, logging and metrics: input and output only.
- Parsing of JSON, decimals and timestamps: a line's parsed form is an input, including whether a field makes the code raise, before or after its number was drawn.
- Tick side, exchange, channel and ingest time: no property here reads them.
- Redis internals: streams, groups and pending lists have exactly the semantics the code relies on. Stream entries without a data field, which are read and never acknowledged, are not modelled.
- Consumer names: a consumer is identified by the incarnation of its worker, so two workers that share a name count as two.
- RedisStream.StreamConsumer.ClaimStale: which pending entries are idle long enough is an input; the delivery theorems hold for any choice. Redis looks at ten times `count` pending entries per call, which is not modelled.
- WorkerLoop.RunWorker: takes the turns of the loop as a list, so a worker that loops forever is a run of every length that is still unfinished.
- Postgres and DuckDB: tables are lists of rows with the filters and conflicts the code uses; rounding of stored floats is not modelled. A batch write is atomic, as one COPY is.
- Bronze.BronzeWriter.Append: UTF-8 encoding is not modelled; object names are assumed distinct, and a writer that dies loses its buffers.
- LiveFeed.ReplayAgreesWithLiveIff: compares payloads without their sequence numbers, because each rebuild numbers from 1 in listing order, and takes times from the messages: one without a time gets the clock whenever it is normalized.
- DeliveryOrder.EveryRunNumbers: one ingestor runs at a time. A message that raises after its number was drawn ends its ingestor, so the number is not seen by a later one.
- Silver.TransformSymbolDate: a failing file deletion or file write is not modelled; only the table's schema makes a rebuild raise after clearing.
- Sensor.RequestedIffNew: requests of one evaluation are a set; the order in which they are listed is not modelled.
- LoadHarness.VerdictBoundsLoss: when Redis cannot tell the lag the harness uses the pending count; entries are never deleted here, so it always can.
- LoadHarness.RunStep: elapsed times and rates are not modelled; what the publishers and workers do between readings is an input. `results_to_json` is formatting.
- BreakReport.GenerateBreakReport: the markdown text, the per-type counts and the sample table are not modelled.
- Uniqueness of (symbol, sequence) across silver partitions: each rebuild restarts at 1.
- Data quality suites, orchestration assets, dbt models, charts and the scale benchmark: plumbing or measurement.
