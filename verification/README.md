# StatLite, modelled and proved

StatLite polls targets, stores cumulative counters in SQLite and turns them into chart deltas. This project models that
path from the bytes of a metrics endpoint to the points of a chart, and proves what it keeps.

* **Histories.** A target's history is a sequence of polls in the order of start time and id, each with an optional app
  run and a map from metric key to sample (`Polls`). Timestamps are integers (nanoseconds), values are reals.
* **Series engine** (`Series`, `SeriesReads`, `SeriesLaws`, `SeriesPoints`). One pass over sample rows against a
  per-counter baseline. Every point is shown to depend on its own history only, to mean what the stored polls say value
  by value, and deltas to telescope.
* **Aggregation** (`Downsample`, `DownsampleLaws`, `DownsampleMeans`), **long-range dashboard reads** (`Dashboard`,
  `DashboardEndpoints`, `Sampling`, `SamplingExact`, `SamplingTheorem`, `SamplingLoss`, `SamplingPresence`,
  `SamplingGaps`, `SamplingIdle`, `SamplingLatency`) and the **public read** (`PublicMetrics`, `Retention`, `PublicLaws`,
  `PublicAnswers`). The endpoint-sampled fast path is compared with the plain fold: equal latest values always; with
  contiguous runs a lower bound for totals and the exact shortfall, whatever samples are missing; and the exact
  conditions under which totals, whole charts and latencies are equal.
* **Caddy collection** (`Identity`, `IdentityTexts`, `CaddyPopulation`, `CaddyTotals`, `CaddyCollector`,
  `CaddyExposures`), **storage** (`Database`, `StorageFacts`) and **monitor** (`Monitor`, `MonitorViews`), first each by
  itself, then as machines over whole lives of a target: `MonitorRecovery` (restoring a monitor from its history),
  `MonitorRuns` and `MonitorEvents` (runs, process starts and announced restarts), `CaddyRuns` with `CaddyContinuity`
  (collector, monitor and database with failing scrapes, storage calls that fail before or after committing, restarts and
  retention), `CaddyBoundaries` (where those runs end), and `CaddyCharts`, which carries all this to the charts.
* **Exposition parser** (`Prometheus`, `Readers`, with `PrometheusLaws` and `PrometheusDocuments` for printed texts, and
  `PrometheusBlocks`, `PrometheusTails`, `PrometheusLines` and `PrometheusFaults` for all texts: exactly what is read, and
  why anything else is refused; `CaddyScrapes` joins it to the Caddy population), the **Micrometer aggregator**
  (`Micrometer`, `MicrometerTotals`), the **sortable time codec** (`TimeCodec`, `TimeParsing`, `TimeTexts`), the
  **lock-free maximum** (`AtomicMax`) and the **Micronaut health capability** (`Micronaut`, `MicronautReports`).

Code that works step by step is modelled by methods and classes with the program's own fields and loops. Each is proved
against a function of its inputs or its old state, and the laws are lemmas about these functions. Besides the laws that
relate operations there is, for each such function, one that says what it computes without it: by members of label sets,
places of characters, stored polls, or sums over what was exposed. `Common`, `Folds`, `Averages`, `Exposition` and
`Collection` hold shared definitions.

Two assumptions run through the model. Storage calls are parameters: each works, or fails with or without having
committed; ids are new because SQLite takes one more than the greatest row id. Number parsing and printing, the Unicode
table behind quoting, label validators of frameworks and the greatest finite float are parameters as well.

One comment in the repository does not match its code: the one on restart events says that an event marks a new app run.
It does so exactly if the collection reports no process start or a start that no stored run has
(`MonitorRuns.AnnouncedRunIsUnseenIff`). A lower uptime under an unchanged start is announced while the run stays
(`MonitorRuns.LowerUptimeKeepsRun`), and a start that flaps back is announced while the old run is found again
(`MonitorRuns.FlappingStartFindsOldRun`).

The comment on the dashboard read warns that skipped samples or resets can change long-range totals and latency. The
model says when they do: exactly what a counter falls back inside one bucket and run, as far as it also rises there, is lost
(`SamplingLoss.WindowShortfall`, with a history in `SamplingLoss.ResetIsLost`), and nothing is lost for any Caddy target
(`CaddyCharts.CaddyChartsAreExact`) or wherever runs are steady (`SamplingTheorem.EndpointSamplingIsExact`). A steady
latency can only rise, by request time gained while no request was counted (`SamplingLatency.EndpointLatencyIsExactIff`,
with a history in `SamplingLatency.IdleTimeShows`).

## Model

| member | source | states |
|---|---|---|
| `Series.StateIsLastCarrier` | internal/storage/series.go:375-382 | the baseline of a counter after any list of polls is the value of the last poll that carried it, or the starting baseline if none did |
| `Series.FoldReachesBaseline` | internal/storage/series.go:212-252 | folding the window [lo, hi) from the stored baseline at lo gives, for every counter, the stored baseline at hi, under any retention cutoff |
| `Series.FoldCongruence` | internal/storage/series.go:292-382 | only the five counter entries of a baseline can influence points and later baselines |
| `SeriesReads.GatherRows` | internal/storage/series.go:172-197 | grouping the joined sample rows by poll id gives back exactly the polls that have a series sample, each with its series samples |
| `SeriesReads.FoldRows` | internal/storage/series.go:160-201 | the row loop, flushing a poll when the next one starts and once at the end, computes the fold over polls and leaves the fold state in the shared map |
| `SeriesReads.BaselineTable.BuildSeriesPoint` | internal/storage/series.go:292-327 | a point is derived from the baseline before the poll, and only then the baseline moves |
| `SeriesReads.SeriesWithBaseline` | internal/storage/series.go:125-210 | the points, first poll id, latest point and current disk of the chosen polls, and the consumed baseline |
| `SeriesReads.PreviousCounterValuesFrom` | internal/storage/series.go:212-252 | per key the last counter sample in [cutoff, start), a key without one being absent |
| `SeriesReads.ReadSeries` | internal/storage/series.go:73-90 | an inverted window is refused; otherwise the fold of the whole window from the stored baselines |
| `SeriesReads.BoundedSeries` | internal/storage/series.go:30-71 | more than 4096 polls in the window are refused; otherwise the bounded read equals the plain fold with baselines from the cutoff on |
| `SeriesLaws.NativePointIsLocal` | internal/storage/series.go:123-210 | every native point is its poll measured against the last stored value of each counter before it, whatever window is read |
| `SeriesLaws.DeltasSpanNearestCarrier` | internal/storage/series.go:344-358 | a delta is present exactly if the nearest earlier poll of the whole history with that counter is of the same run and not above, and then spans exactly these two polls |
| `SeriesLaws.DeltasTelescope` | internal/storage/series.go:344-382 | inside one nondecreasing run the deltas add up to last value minus baseline and every poll with the counter has one, however many polls lack it |
| `SeriesPoints.PlottedPollHasPoint` | internal/storage/series.go:123-210 | every poll of the window with a series sample has its point, in order: each counter delta is the gain since the nearest earlier holder of the same run, gauges and units are the stored ones (runtime heap before JVM heap), a usage times its whole is its part |
| `SeriesPoints.PointHasPlottedPoll` | internal/storage/series.go:292-342 | and there are no other points: each belongs to such a poll at its place |
| `SeriesPoints.SeriesMeans` | internal/storage/series.go:199-272 | the first poll id, the latest point and the current disk are those of the first and the last point, the disk only if all three of its values are shown |
| `Downsample.AggregateSeries` | internal/storage/downsample.go:20-71 | the loop that aggregates in one pass returns the aggregated series, or the series unchanged if nothing merges |
| `Downsample.BucketAccumulator.Add` | internal/storage/downsample.go:107-139 | adding a point keeps every sum, count, weight and common identity of the bucket equal to those of its members |
| `DownsampleLaws.ClockBucketContains` | internal/storage/downsample.go:75-80 | the bucket of a time starts at the one multiple of the width whose bucket contains that time |
| `DownsampleLaws.OnePassIsGroupBy` | internal/storage/downsample.go:37-64 | on time-sorted points one pass finds strictly increasing buckets that hold exactly the points of their slot |
| `DownsampleLaws.AggregateIsGroupBy` | internal/storage/downsample.go:20-71 | aggregated timestamps increase strictly, lie in the window, and each point stands for exactly the points of its slot |
| `DownsampleLaws.CollapseStandsFor` | internal/storage/downsample.go:107-206 | a collapsed point has the slot totals of the counters and keeps a poll id or run exactly if all its members share it |
| `DownsampleLaws.DeltasConserved` | internal/storage/downsample.go:168-190 | aggregation changes neither the sum of a counter over a series nor whether the series shows it at all, whatever the order of points |
| `DownsampleLaws.BucketLatencyBounded` | internal/storage/downsample.go:176-206 | a bucket latency exists exactly if a member has one with traffic, and lies between the least and the greatest of them |
| `DownsampleLaws.AggregationIsIdempotent` | internal/storage/downsample.go:20-71 | aggregating an aggregated series again changes nothing |
| `DownsampleMeans.FieldMeans` | internal/storage/downsample.go:141-198 | a collapsed counter is the sum of the values its points show, a collapsed gauge times the number of points that show it is their sum; both are absent exactly if none does |
| `DownsampleMeans.LatencyIsWeighted` | internal/storage/downsample.go:176-206 | a collapsed latency times the requests of the points that have one is the time those requests took |
| `DownsampleMeans.AggregateSummarizes` | internal/storage/downsample.go:20-71 | time-sorted points are aggregated exactly if two share a bucket; then every occupied bucket has one point, in order, that summarizes its points field by field |
| `Averages.MeanBetween` | internal/storage/downsample.go:192-198 | a mean lies between any bounds of its values |
| `Dashboard.DashboardPollIds` | internal/storage/dashboard_series.go:130-185 | the grouping loop lists exactly the first and last poll of each bucket and run in ascending order without repetition, and gives up exactly when these exceed 4096 |
| `Dashboard.NotePoll` | internal/storage/dashboard_series.go:159-171 | noting one poll updates the endpoints of its group and fails exactly at the cap |
| `Dashboard.OverlayIsBaseline` | internal/storage/dashboard_series.go:98-104 | the pre-window baseline overlaid with in-window baselines is the stored baseline just before the latest timestamp |
| `Dashboard.NativeLatest` | internal/storage/dashboard_series.go:69-110 | reading every poll tied at the latest relevant timestamp from the overlaid baseline gives the latest point and disk of the plain read |
| `Dashboard.DashboardSeries` | internal/storage/dashboard_series.go:25-124 | for every history, window and bucket the result has the latest point, current disk and first poll id of the plain read, with chart points from the selected polls |
| `DashboardEndpoints.ChartsShowEndpoints` | internal/storage/dashboard_series.go:25-185 | half-hour and two-hour charts are the plain charts of the history without its skipped polls (those with an earlier and a later one of the same run and clock stretch in the window), if at most 4096 polls of the window are left; every other chart, and all current values, are those of the history itself |
| `DashboardEndpoints.ThinnedExists` | internal/storage/dashboard_series.go:126-185 | there is such a history for every window and width |
| `Sampling.FoldTotals` | internal/storage/series.go:344-382 | the deltas of a read sum to a total that depends on one counter only |
| `Sampling.SampledTotalAtMostNative` | internal/storage/dashboard_series.go:18-24 | with contiguous runs the sampled total of a counter never exceeds the native one, whatever is missing or reset |
| `SamplingLoss.SlotTalliesDiffer` | internal/storage/dashboard_series.go:126-185 | under contiguous carrying runs a slot loses, for each of its groups of bucket and run, the smaller of what the counter rises and what it falls inside the group |
| `SamplingLoss.SlotIsExactIff` | internal/storage/dashboard_series.go:18-24 | so a sampled slot total is the native one exactly if the counter is monotone inside each group of the slot |
| `SamplingPresence.SampledShowsIff` | internal/storage/dashboard_series.go:126-185 | a sampled slot shows a delta exactly if one of its groups opens with one or ends no lower than it began |
| `SamplingPresence.NativeShowsIff` | internal/storage/dashboard_series.go:126-185 | a native slot shows a delta exactly if a sampled one does or one of its groups does not fall from poll to poll |
| `SamplingPresence.SlotIsSameIff` | internal/storage/dashboard_series.go:18-24 | a sampled slot is the native one, in total and in the presence of one, exactly if its groups each go one way and, when their ends show no delta, all fall from poll to poll |
| `SamplingPresence.EndpointSamplingIsExactIff` | internal/storage/dashboard_series.go:18-24 | for contiguous carrying runs, with resets anywhere, the sampled chart aggregates to the native buckets and totals exactly if the read falls back to every poll or this holds in every slot |
| `SamplingLoss.WindowShortfall` | internal/storage/dashboard_series.go:18-24 | for any history and window with such runs the native total minus the sampled one is the sum of these losses, and zero past the cap |
| `SamplingLoss.SampledTotalIsExactIff` | internal/storage/dashboard_series.go:18-24 | the window total is exact exactly if the read falls back to every poll or the counter is monotone inside every group; a reset between buckets loses nothing |
| `SamplingLoss.OneGroupShortfall` | internal/storage/dashboard_series.go:18-24 | for a window inside one bucket and run the shortfall is the smaller of rises and falls of its values, however many polls it has |
| `SamplingLoss.ResetIsLost` | internal/storage/dashboard_series.go:22-24 | a concrete history of 100, 120, 5 and 150 requests in one bucket whose sampled total is 115 too low |
| `SamplingGaps.DroppedTotal` | internal/storage/dashboard_series.go:22-24 | for any polls dropped from contiguous runs with any samples missing, the total loses, between two kept samples of a run, the smaller of rises and falls, and every rise before the first and after the last |
| `SamplingGaps.SampledTotalShortfall` | internal/storage/dashboard_series.go:18-24 | so the sampled window total falls short by exactly these losses and is exact exactly if no stretch has any, whatever samples are missing |
| `SamplingExact.SlotTalliesAgree` | internal/storage/dashboard_series.go:126-185 | with steady runs the endpoints give every slot the same sum and presence as all polls do |
| `SamplingTheorem.EndsOccupyEverySlot` | internal/storage/dashboard_series.go:159-171 | a slot holds a relevant poll exactly if it holds a selected one |
| `SamplingTheorem.EndpointSamplingIsExact` | internal/storage/dashboard_series.go:130-185 | with contiguous, carrying and nondecreasing runs, and run-less polls that carry no series sample, the sampled and the native series aggregate to the same buckets with the same counter totals, below and above the cap |
| `SamplingTheorem.SlotTotalsAgree` | internal/storage/dashboard_series.go:126-185 | the totals alone agree slot by slot even if run-less polls carry other samples than the counter |
| `SamplingIdle.SlotIdlesDiffer` | internal/storage/dashboard_series.go:126-185 | with steady request and time counters, the native read sees in every slot exactly the idle time (gained while no request was counted) that the slot's groups of bucket and run hide between their endpoints |
| `SamplingIdle.SlotHidesNothingIff` | internal/storage/dashboard_series.go:18-24 | a slot hides nothing exactly if each of its groups counts no request after its first poll or gains no time while idle |
| `SamplingLatency.SlotWeightsDiffer` | internal/storage/dashboard_series.go:18-24 | so a sampled slot weighs the same requests as the native one and exactly the hidden time more |
| `SamplingLatency.EndpointLatencyIsExactIff` | internal/storage/dashboard_series.go:18-24 | for any history, window and bucket with steady traffic the sampled chart has a latency in exactly the buckets where the native one has, never a lower one, and everywhere the same exactly if the read falls back to every poll or no group hides idle time |
| `SamplingLatency.IdleTimeShows` | internal/storage/dashboard_series.go:22-24 | a concrete history of three polls whose sampled latency differs from the native one |
| `PublicMetrics.SlotState.Add` | internal/storage/public_metrics.go:71-103 | one poll is put in the minute slot of its time, with its paired coverage counted only if it has a request delta |
| `PublicMetrics.GroupPublicMetrics` | internal/storage/public_metrics.go:30-106 | the grouping loop yields one public point per occupied minute and the time of the last HTTP observation |
| `PublicLaws.PublicRatesAreProportions` | internal/storage/public_metrics.go:57-67 | if requests minus 5xx never decreases within a run, every 5xx rate of the public answer is in [0, 1] |
| `PublicLaws.PublicLatencyIsExact` | internal/storage/public_metrics.go:44-56 | latency requests times average latency is the sum of the request-time deltas of exactly the points with a latency |
| `PublicLaws.ErrorsNeedFullCoverage` | internal/storage/public_metrics.go:57-62 | a slot shows an error total exactly if every request interval in it has errors over the same baseline, and then the sum over just these |
| `PublicLaws.SlotsAreMinutes` | internal/storage/public_metrics.go:84-90 | the slots are the minutes that hold a usable point, strictly increasing, and each gathers exactly the usable points of its minute |
| `PublicAnswers.RateMeans` | internal/storage/public_metrics.go:57-67 | a 5xx rate is present exactly if both totals are and there was a request; times the requests it is the errors |
| `PublicAnswers.SlotAnswers` | internal/storage/public_metrics.go:36-70 | a public point answers for the points of its slot: totals, paired errors, rate, weighted latency with its weight, and means of the gauges |
| `PublicAnswers.GroupsAreMinutes` | internal/storage/public_metrics.go:30-106 | time-sorted points make one public point for each minute in which one shows anything, and the last HTTP observation is the latest point with requests, latency or paired errors |
| `Retention.Store.DeletePollsBefore` | internal/storage/retention.go:82-108 | deletion keeps exactly the polls from the cutoff on and reports how many went; a call that reports an error may have deleted them or not |
| `Retention.CleanupRetention` | internal/storage/retention.go:64-80 | the tracked cutoff moves exactly if the deletion reports success, so that a failed one may leave polls deleted before an unmoved cutoff |
| `Retention.CutoffIndexIsEarliest` | internal/server/request.go:108-118 | the cleared point is the earliest at or after the cutoff, the first of them on ties, in any order of points |
| `Retention.ClearCutoffCounterBaseline` | internal/server/request.go:100-132 | exactly the counter values of that point, and of a latest point that is the first one, are cleared |
| `PublicAnswers.ClearingMeans` | internal/server/request.go:100-132 | the earliest retained point loses exactly its counters, and so does the latest point if it is the first one and retained; nothing else changes |
| `PublicAnswers.LatestStaysLast` | internal/server/request.go:100-132 | in a retained read the latest point is still the last one afterwards |
| `Retention.ReadPublicMetrics` | internal/server/public_metrics.go:13-27 | clamp, bounded read, clearing and grouping compose to the public answer |
| `PublicAnswers.AnswerPointsAreRetained` | internal/server/public_metrics.go:13-27 | clearing the first retained point changes nothing, since the bounded read measures it against nothing |
| `PublicAnswers.PublicAnswerMeans` | internal/server/public_metrics.go:13-27 | the whole public answer: empty if retention has cut the last hour off, refused above 4096 polls in it, and otherwise the minutes of a native read of the retained polls |
| `Retention.PublicAnswerIgnoresExpired` | internal/server/public_metrics.go:13-27 | two histories that agree from the cutoff on get the same public answer |
| `Retention.DeletionIsInvisible` | internal/storage/retention.go:93-96 | deleting polls before any instant up to the cutoff never changes the public answer |
| `PublicLaws.AnswerBetweenDeletionAndMove` | internal/storage/retention.go:69-76 | between the deletion and the move of the cutoff, or after a failed call that deleted all the same, the public answer is the one the moved cutoff gives on the whole history, exactly unless the cutoff is a new one at this very instant and polls of this instant show anything or are too many |
| `Identity.QuoteDecodes` | internal/collector/caddy.go:126-130 | a quoted string followed by anything can be split in one way only |
| `Identity.KeyIdentifiesLabels` | internal/collector/caddy.go:122-131 | two label sets have the same identity key exactly if one is a permutation of the other |
| `IdentityTexts.EscapeDenotes` | internal/collector/caddy.go:122-131 | every character of a quoted text is itself, if printable, or the shortest Go escape that denotes it |
| `IdentityTexts.QuoteDenotes` | internal/collector/caddy.go:122-131 | a quoted text is those escapes in order between two quotes |
| `CaddyCollector.PopulationBuilder.Accept` | internal/collector/caddy.go:89-150 | one sample updates server and tuple map or is refused with its reason, the tuples then being untouched |
| `CaddyPopulation.AcceptedExactly` | internal/collector/caddy.go:89-150 | a scrape is accepted exactly if every sample reads, one server matches, no part of a tuple comes twice and at most 256 tuples occur; the population then holds those values and nothing else |
| `CaddyPopulation.OrderDoesNotMatter` | internal/collector/caddy.go:122-150 | acceptance and the accepted population do not depend on the exposition order |
| `CaddyExposures.ReadsAsMeant` | internal/collector/caddy.go:89-131 | a sample counts for nothing if its metric, host or handler is another one, for its labels and value if it is the host's own, and otherwise spoils the scrape |
| `CaddyExposures.SpelledCode` | internal/collector/caddy.go:111-114 | a status code is exactly three digits that spell a number from 100 to 599 |
| `CaddyExposures.ForeignIsIgnored` | internal/collector/caddy.go:89-105 | a sample of another metric, host or handler can stand anywhere in a scrape without changing what is collected |
| `CaddyExposures.UnfitSpoils` | internal/collector/caddy.go:106-121 | any other sample that is not a complete, valid one of the host makes the collection fail wherever it stands |
| `CaddyExposures.RefusalMeans` | internal/collector/caddy.go:106-149 | a sample is refused for the first thing that is wrong with it: the first missing label, the code, the server, the value, and only then what the population already holds |
| `CaddyTotals.ObservedIsGenuine` | internal/collector/caddy.go:111-148 | accepted counts are whole numbers up to 2^53 - 1, durations are not negative, and each tuple has the status code its identity names |
| `CaddyTotals.Totals` | internal/collector/caddy.go:152-184 | totals exist exactly if every tuple has count and duration and the sums stay in range, and then are the sums over the tuples; otherwise the error is the first fault in key order |
| `CaddyTotals.KeyOrderIsUnique` | internal/collector/caddy.go:154-159 | the keys have one order only, so that the reported fault is determined |
| `CaddyTotals.TotalsAreShares` | internal/collector/caddy.go:165-178 | 404 is at most 4xx, and 4xx plus 5xx at most all requests |
| `CaddyTotals.TotalRemove` | internal/collector/caddy.go:154-182 | the order of addition does not matter |
| `CaddyTotals.CountersMoveByTuples` | internal/collector/caddy.go:160-182 | between two populations each counter moves by exactly what the tuples gained |
| `CaddyTotals.GrowthOnlyGains` | internal/collector/caddy.go:66-72 | if no tuple vanished or dropped no counter loses, because a key has one status code for ever |
| `CaddyExposures.TotalsAreServed` | internal/collector/caddy.go:152-184 | the five counters are the sums over the exposed series, requests by status class |
| `CaddyCollector.Collector.Collect` | internal/collector/caddy.go:41-82 | a refused collection forgets the remembered population and reports one error event; an accepted one reports the sums, replaces the memory, and declares a break exactly if the population does not continue the remembered one; every error has its own cause, kind and text |
| `CaddyExposures.ServedAreCollected` | internal/collector/caddy.go:89-184 | a scrape that exposes, in any order and among any foreign samples, between 1 and 256 distinct series of one server of the host is collected with one tuple for each label set, holding its count, its duration and the code its label spells |
| `CaddyExposures.ServedAreReported` | internal/collector/caddy.go:46-82 | and is reported as five counters with their units, each the sum over these series, without events |
| `CaddyExposures.NobodyIsReported` | internal/collector/caddy.go:46-82 | a scrape of foreign samples only is reported as not observed |
| `CaddyExposures.FailureIsNamed` | internal/collector/caddy.go:46-66 | a failed collection has one error event that names what went wrong: the settings, the scrape or a sample of it, that the host was not seen, or that its series do not add up |
| `CaddyCollector.Collector.Gather` | internal/collector/caddy.go:54-65 | a scrape gives a population and its sums exactly if it is configured, complete, accepted, not empty, paired and in range; otherwise the error names what happened: not configured, the first refused sample, a failed scrape, no observation of the host, or an unfit population |
| `CaddyCollector.HasDropped` | internal/collector/caddy.go:67-72 | the loop finds exactly whether a remembered tuple vanished or dropped |
| `Database.PollStatusOf` | internal/storage/write.go:204-215 | a poll is ok exactly without error events; otherwise the messages are joined in order |
| `Database.Store.SaveCollectionResult` | internal/storage/write.go:23-70 | a result the schema admits is stored with a new id at its place in time; a failing save may have stored it or not |
| `Database.Store.EnsureAppRun` | internal/storage/write.go:72-107 | a known process start is seen again under its id, any other begins a run with the new id |
| `Database.Store.TouchAppRun` | internal/storage/write.go:109-126 | a touch fails exactly for an unknown run or a failing store |
| `Database.EnsuredKeeps` | internal/storage/write.go:139-176 | ensuring a run loses no other run and no start time, and the ensured run exists |
| `Database.Store.LatestSuccessfulSnapshot` | internal/storage/query.go:89-185 | the latest ok poll by start time and id, with the start of its run |
| `Database.Store.LatestFailedPollAt` | internal/storage/query.go:24-48 | the finish time of the latest failed poll |
| `Database.Store.TrailingFailedPolls` | internal/storage/query.go:50-87 | the number of failed polls after the latest ok one, capped at 100 |
| `StorageFacts.SummaryJoinsErrors` | internal/storage/write.go:204-215 | a poll failed exactly if it has an error event, and its summary joins the error messages in order with "; " |
| `StorageFacts.RowMeans` | internal/storage/write.go:178-215 | a stored poll has the times, run, samples, health, source and events of its collection |
| `StorageFacts.InsertedMeans` | internal/storage/write.go:178-202 | a poll is stored once, and the rows stay in the order of start time and id |
| `StorageFacts.EnsuredMeans` | internal/storage/write.go:72-176 | a stored run with the start is seen again under its id; any other start, or none, begins a run first and last seen then |
| `StorageFacts.TouchedMeans` | internal/storage/write.go:109-126 | touching a run moves the time it was last seen and nothing else |
| `StorageFacts.LatestMeans` | internal/storage/query.go:16-53 | the latest successful and failed polls are the last ones with that status |
| `StorageFacts.SuffixMeans` | internal/storage/query.go:55-87 | the failed polls after the last successful one, at most 100 |
| `StorageFacts.SnapshotMeans` | internal/storage/query.go:89-185 | a poll is read back as stored, with the start of its run |
| `Monitor.TargetMonitor.PollNow` | internal/monitor/monitor.go:177-251 | one polling cycle moves monitor and database by the specified step, whatever the collector returns and whichever storage calls fail or fail after committing |
| `Monitor.TargetMonitor.FindRun` | internal/monitor/monitor.go:401-457 | the run of a collection and the runs table afterwards follow the verdict: continue, or ensure with a reason |
| `Monitor.TargetMonitor.RecordSuccess` | internal/monitor/monitor.go:459-472 | success publishes the snapshot twice and resets the failure count and summary |
| `Monitor.TargetMonitor.RecordFailure` | internal/monitor/monitor.go:474-487 | failure counts up and keeps the previous successful snapshot and its times |
| `Monitor.TargetMonitor.EnableNoPoll` | internal/monitor/monitor.go:108-152 | the restore shows what the stored history says; the first failed read is reported and changes nothing but the flag |
| `MonitorViews.SuccessIsShown` | internal/monitor/monitor.go:459-472 | a recorded success is shown as the latest and previous poll with its health and times, and ends every failure |
| `MonitorViews.FailureIsShown` | internal/monitor/monitor.go:474-487 | a stored failure is shown as the latest poll, counts as one more failure, keeps the previous success, and says what its error events say, else what the collector said |
| `MonitorViews.StorageFailureIsShown` | internal/monitor/monitor.go:177-251 | a collection whose run cannot be found, or that cannot be stored or read back, is one more failure that says which, in this order |
| `MonitorViews.UnreadHistoryIsShown` | internal/monitor/monitor.go:177-251 | a cycle that cannot read its history asks no collector, stores nothing and shows no health |
| `MonitorViews.NoResultIsAFailure` | internal/monitor/monitor.go:177-251 | a collector that returns nothing has failed at this instant |
| `MonitorViews.RestoreIsShown` | internal/monitor/monitor.go:108-152 | a restored monitor shows the latest poll, its health, and the successes and failures that the rows tell |
| `MonitorViews.FailedReadIsShown` | internal/monitor/monitor.go:108-130 | a restore whose reads fail reports the first failing one and only stops polling |
| `MonitorRecovery.StepMirrors` | internal/monitor/monitor.go:177-251 | one cycle without storage errors keeps the live state equal to what the database says |
| `MonitorRecovery.LiveIsMirror` | internal/monitor/monitor.go:177-251 | so does every run of cycles from an empty history |
| `MonitorRecovery.RestoreRefinesLive` | internal/monitor/monitor.go:108-152 | after any such run a fresh monitor restores the same snapshots, health, poll times, ids and summary, and the failure count capped at 100 |
| `MonitorRecovery.RestoreIsExactWithinLimit` | internal/storage/query.go:50-55 | the restored state is the live one exactly if the live failure count is at most 100 |
| `MonitorRuns.SameRunIffSameStart` | internal/monitor/monitor.go:416-446 | over every life of a target, with failing storage and restarts, two polls that report a process start share a run exactly if they report the same start |
| `MonitorRuns.AnnouncedRestartChangesRunIff` | internal/monitor/monitor.go:45-47 | the run of an announced restart differs from the run of the previous successful poll exactly unless the collection reports that very start |
| `MonitorRuns.AnnouncedRunIsUnseenIff` | internal/monitor/monitor.go:45-47 | the run of an announced restart is one no poll had before exactly if the collection reports no start or a start that no stored run has, against the comment, which takes every such event for a new run |
| `MonitorRuns.LowerUptimeKeepsRun` | internal/monitor/monitor.go:427-430 | from a fresh database: two polls report the same start and a lower uptime; a restart is announced and the run stays |
| `MonitorRuns.FlappingStartFindsOldRun` | internal/monitor/monitor.go:421-424 | from a fresh database: three polls report the starts A, B, A; the third announces a restart and has the run of the first |
| `MonitorRuns.StartlessRunsEndOnEvidence` | internal/monitor/monitor.go:425-445 | over every life of a target: of two successful polls, the later without a process start and only failed collections between them, both have one run exactly if the later shows no lower uptime, not both core counters lower, and none of them lower after a failure |
| `MonitorEvents.RestartsAreAnnounced` | internal/monitor/monitor.go:419-446 | over every life of a target, a successful poll of an application after another one holds a restart warning exactly if both starts are known and differ, or the uptime is lower, or both core counters are, or one of them after a failure; its message is the first of these, and otherwise its events are those of its collection |
| `MonitorEvents.CaddyNeverAnnounces` | internal/monitor/monitor.go:392-414 | a Caddy poll never holds a restart warning |
| `MonitorEvents.FirstNeverAnnounces` | internal/monitor/monitor.go:416-419 | nor does the first successful poll of a target |
| `MonitorRuns.DetectedFits` | internal/monitor/monitor.go:401-446 | every detected run is known and has the reported start, and no run is lost or renamed even by a failing call |
| `CaddyContinuity.VerdictTakes` | internal/monitor/monitor.go:402-414 | a collection that broke nothing carries on a run whose populations only grow to the new one; otherwise the run is above all stored ones |
| `CaddyContinuity.PollKeeps` | internal/monitor/monitor.go:177-251 | one poll with any scrape and any storage failures keeps the coupling of collector memory, monitor and database |
| `CaddyContinuity.DeletionKeeps` | internal/storage/retention.go:82-108 | retention keeps it too |
| `CaddyContinuity.RunsAreSound` | internal/monitor/monitor.go:402-414 | every run of polls, failures, restarts, history loads and deletions keeps it |
| `CaddyContinuity.SameRunOnlyGrows` | internal/collector/caddy.go:66-80 | over every life of a Caddy target two stored polls of one run have the same server, and every tuple of the earlier is in the later with no smaller count or duration |
| `CaddyCharts.CountersGain` | internal/collector/caddy.go:66-80 | between two stored polls of a run each of the five counters moves by the sum of the tuple gains, which is not negative |
| `CaddyCharts.DeltasAreTupleGains` | internal/storage/series.go:292-327 | in every window the point of a poll whose latest successful predecessor is of its run has all four count deltas and the latency, each computed from exactly the tuple gains between the two |
| `CaddyCharts.RunBoundaryShowsNone` | internal/storage/series.go:344-358 | and in every window the point of a successful poll without such a predecessor shows no delta and no latency |
| `CaddyCharts.CaddyChartsAreExact` | internal/storage/dashboard_series.go:18-24 | for every life of a Caddy target the endpoint-sampled chart of every counter aggregates to exactly the native one |
| `CaddyCharts.CaddyLatencyIsExactIff` | internal/storage/dashboard_series.go:18-24 | and to a latency that is never below the native one, the same exactly if every poll is read or no bucket and run hides idle time |
| `CaddyBoundaries.CollectedIsRecorded` | internal/monitor/monitor.go:177-251 | a scrape that yields a population, with working storage calls, is stored as the latest poll under the run of the unbroken chain, or under the new id if there is none or the population broke it |
| `CaddyBoundaries.MiddleDecides` | internal/monitor/monitor.go:402-414 | whatever happens after a recorded poll except reads of the history and deletions leaves a monitor that cannot carry the run on, for good |
| `CaddyBoundaries.RunGoesOnIff` | internal/monitor/monitor.go:402-414 | over every life of a Caddy target: two recorded polls with none between them share a run exactly if only reads of the history and deletions lie between them and the later population continues the earlier |
| `Prometheus.FindLabelEnd` | internal/prometheus/prometheus.go:383-398 | the scan returns the first closing brace outside quotes |
| `Prometheus.QuotedValue` | internal/prometheus/prometheus.go:444-472 | the loop reads the unescaped value and where it ends, or fails on a bad escape or a missing quote |
| `Prometheus.ParseLabels` | internal/prometheus/prometheus.go:400-442 | the loop reads comma-separated labels with valid, distinct names, within both limits |
| `Prometheus.ParseSample` | internal/prometheus/prometheus.go:298-343 | one line gives a sample or the class of its error |
| `Prometheus.Parse` | internal/prometheus/prometheus.go:237-296 | the whole exposition gives its samples exactly if every line reads, the limits hold, the handler takes every sample and the format ends as it must; otherwise the first error in line order, and the handler has taken the samples of a prefix |
| `PrometheusLines.ParsedExactly` | internal/prometheus/prometheus.go:237-296 | a text parses to these samples exactly if every line that is neither blank nor a comment reads as one of them, the end mark is the last text if it occurs, they are not too many, the handler takes them, no reading error occurred, and the text ends as its format demands |
| `PrometheusLines.BlankLineIsIgnored` | internal/prometheus/prometheus.go:249-253 | a blank line anywhere changes neither success nor samples |
| `PrometheusLines.CommentIsIgnored` | internal/prometheus/prometheus.go:257-263 | nor does a line starting with #, other than the end mark, before that mark |
| `PrometheusFaults.ParseFault` | internal/prometheus/prometheus.go:249-295 | a failing parse names the fault of the first text that cannot follow, else the reading error, else that the ending is malformed |
| `PrometheusFaults.LineFault` | internal/prometheus/prometheus.go:264-276 | a line is refused for the limits exactly if wider limits would change what is made of it, and otherwise as malformed |
| `PrometheusBlocks.SampleExactly` | internal/prometheus/prometheus.go:298-343 | a line is this sample exactly if a valid name stands before a brace, a blank or a tab, and behind it the labels in braces or none, and the value, are spelled |
| `PrometheusBlocks.BlockExactly` | internal/prometheus/prometheus.go:400-472 | a block is read as these labels exactly if it spells them, with white space anywhere between their parts and perhaps a comma behind the last, their names are valid and distinct, and they are within the limits |
| `PrometheusTails.TailExactly` | internal/prometheus/prometheus.go:320-342 | what is behind the labels gives a value exactly if it is that value with an optional timestamp as its format writes it, and possibly, in OpenMetrics only, an exemplar behind the first mark |
| `PrometheusBlocks.ExemplarSpelled` | internal/prometheus/prometheus.go:345-369 | an exemplar is a label set in braces and a value with an optional timestamp |
| `PrometheusTails.NameCharacters` | internal/prometheus/prometheus.go:474-490 | names are made of ASCII letters, digits behind the first character and underscores, and of colons in metric names |
| `PrometheusTails.AsciiSpace` | internal/prometheus/prometheus.go:250 | of the ASCII characters the blank and those from tab to carriage return are trimmed |
| `PrometheusTails.Utf8LengthMeans` | internal/prometheus/prometheus.go:425-427 | label sizes count the bytes of UTF-8, one to four for each character |
| `CaddyScrapes.ScanIsObserved` | internal/collector/caddy.go:54-58 | scanning with the population as handler succeeds exactly if every line reads and the population accepts every sample, with the same samples |
| `CaddyScrapes.ParsedIsObserved` | internal/collector/caddy.go:54-58 | a text that parses with this handler gives samples fit for the collector, whose population they make; if it parses without it, only a refused sample stops it |
| `PrometheusLaws.UnquoteReadsBack` | internal/prometheus/prometheus.go:444-472 | any value, printed with the three escapes, is read back wherever it stands |
| `PrometheusLaws.LabelsReadBack` | internal/prometheus/prometheus.go:400-442 | a printed label set within the limits is read back in order |
| `PrometheusLaws.SampleReadsBack` | internal/prometheus/prometheus.go:298-343 | any valid name, distinct labels with arbitrary values, value and timestamp printed on a line parse to the same sample |
| `PrometheusLaws.AcceptedIsPrintable` | internal/prometheus/prometheus.go:409-431 | accepted labels have valid and distinct names and respect the limits |
| `PrometheusLaws.AcceptedBlocksReprint` | internal/prometheus/prometheus.go:400-442 | every accepted label block, printed again, parses to the same labels |
| `PrometheusLaws.ScannersAgree` | internal/prometheus/prometheus.go:383-472 | on every accepted label block the brace scan and the label parser agree on all quotes and escapes |
| `PrometheusLaws.BlockIsCutAtItsBrace` | internal/prometheus/prometheus.go:309-318 | so an accepted block is cut exactly at its own closing brace |
| `PrometheusDocuments.PrintedIsOneLine` | internal/prometheus/prometheus.go:244-250 | a printed sample stays on one line whatever its label values hold |
| `PrometheusDocuments.DocumentReadsBack` | internal/prometheus/prometheus.go:237-296 | printing any samples within the limits in either format and parsing the text, with a handler that takes them, gives exactly these samples in order |
| `PrometheusLines.CommentedDocumentReadsBack` | internal/prometheus/prometheus.go:237-296 | and so do documents with comments and blank lines between the samples |
| `PrometheusDocuments.ScannedIsBounded` | internal/prometheus/prometheus.go:272-275 | no scanned sample repeats a label name and the sample limit holds |
| `Readers.CountingReader.Read` | internal/prometheus/prometheus.go:512-526 | a read delivers the next bytes, never more than one over the limit in all, and reports the limit exactly when it is passed |
| `Readers.FinalByteReader.Read` | internal/prometheus/prometheus.go:497-504 | the remembered byte is always the last one delivered |
| `Readers.LimitOnlyCuts` | internal/prometheus/prometheus.go:512-526 | the limited reader consumes what the bare stream would have given, cut at one byte over the limit |
| `Readers.ReadAll` | internal/prometheus/prometheus.go:289-291 | for any read sizes, short reads and errors: a prefix of at most max + 1 bytes arrives, the limit is reported exactly if the stream gave more than max, and the final byte is the last delivered |
| `Micrometer.HttpValues.AcceptCount` | internal/collector/micrometer.go:116-146 | one count series keeps every flag, sum and identity in agreement with all series so far |
| `Micrometer.HttpValues.AcceptDuration` | internal/collector/micrometer.go:148-166 | one duration series does so too |
| `Micrometer.HttpValues.DurationMatchesCounts` | internal/collector/micrometer.go:212-222 | durations are emitted exactly if both identity sets are equal and not empty, without duplicates, within 20000 identities and without overflow |
| `Micrometer.HttpValues.AddTo` | internal/collector/micrometer.go:224-243 | each total is emitted exactly if its conditions on the exposed series hold, with the exact sum |
| `MicrometerTotals.EmittedExactly` | internal/collector/micrometer.go:116-243 | which of the five totals are emitted, and that each is the sum of the values of its status class, told from the exposed series |
| `Micrometer.TracksNext` | internal/collector/model.go:68-77 | refusing single additions notices exactly the sums that pass the greatest finite number |
| `Micrometer.MatchedGrows` | internal/collector/micrometer.go:168-183 | the shared budget overflows exactly when count and duration identities together exceed 20000 |
| `Micrometer.RepeatsIffTooMany` | internal/collector/micrometer.go:123-126 | an identity is exposed twice exactly if there are more series than identities |
| `Micrometer.OrderIsNotEmitted` | internal/collector/micrometer.go:185-199 | the emitted totals depend only on the multiset of exposed series |
| `AtomicMax.UpdateAtomicMax` | internal/server/server.go:227-233 | the loop of one thread, with any raises by others before each of its atomic steps, ends with the cell at the maximum of its candidate and all values seen, at most two steps after the others fall silent |
| `AtomicMax.StepIsSound` | internal/server/server.go:227-233 | no atomic step of any thread lowers the cell, and a finished thread is satisfied |
| `AtomicMax.StepIsCharged` | internal/server/server.go:227-233 | failed and doomed swaps are paid for by the raises of other threads |
| `AtomicMax.CellNeverDecreases` | internal/server/server.go:227-233 | under any interleaving the cell never decreases |
| `AtomicMax.EndsAtMaximum` | internal/server/server.go:227-233 | when all threads are done the cell holds the maximum of its start and all candidates |
| `AtomicMax.WorkIsBounded` | internal/server/server.go:227-233 | n threads fail at most n(n-1)/2 swaps and take at most n*n + n atomic steps in all |
| `AtomicMax.BusySchedulesEnd` | internal/server/server.go:227-233 | so every schedule of unfinished threads ends |
| `TimeCodec.DigitsOrder` | internal/storage/sqlutil.go:14 | fixed-width decimals order lexically as numbers |
| `TimeCodec.FractionOrder` | internal/storage/sqlutil.go:30-34 | fractions trimmed to different widths order lexically as nanoseconds |
| `TimeCodec.InstantOrder` | internal/storage/sqlutil.go:30-34 | calendar fields order as the instants they name, leap years included |
| `TimeCodec.DaysAddUp` | internal/storage/sqlutil.go:30-34 | the days before a month are those of the Gregorian calendar: 365 a year with a leap day in every fourth, not in every hundredth, but in every four hundredth |
| `TimeCodec.TextOrderIsTimeOrder` | internal/storage/sqlutil.go:30-34 | for years 0000 to 9999 the text order is the time order to the nanosecond, and equal texts are equal times |
| `TimeParsing.ParseInvertsFormat` | internal/storage/sqlutil.go:42-48 | parsing inverts formatting for all of these times |
| `TimeTexts.ReadExactly` | internal/storage/sqlutil.go:42-48 | exactly the texts YYYY-MM-DDTHH:MM:SS of valid times are read, with one digit for the hour allowed and any fraction after a period or a comma, cut to nanoseconds |
| `TimeTexts.WrittenExactly` | internal/storage/sqlutil.go:30-34 | a written time is spelled so, with two digits for the hour, a period and no zero at the end |
| `TimeTexts.OnlyOneIsShortest` | internal/storage/sqlutil.go:30-34 | no other text is |
| `TimeParsing.ReformatIsCanonical` | internal/storage/sqlutil.go:42-48 | reformatting whatever sortable text is accepted, with its free spellings, is idempotent: the new text reads as the same time and formats to itself |
| `TimeParsing.ZonedTextIsLegacy` | internal/storage/sqlutil.go:36-48 | the zoned form of a time is left to the legacy parser |
| `Micronaut.Collector.Collect` | internal/collector/micronaut.go:75-117 | one collection moves the capability and reports samples, health and warnings by the specified step |
| `MicronautReports.ReportMeans` | internal/collector/micronaut.go:84-117 | a report is its metrics half (everything evaluated, or one error that says what went wrong) followed by its health half (both statuses and at most one warning if the endpoint answered, one warning if it failed unforgiven) |
| `MicronautReports.MemoryMeans` | internal/collector/micronaut.go:119-157 | an answer makes health available, a forgiven 404 absent, and a changed start alone unknown |
| `MicronautReports.HealthNeverFails` | internal/collector/micronaut.go:97-116 | unread health is never an error |
| `Micronaut.Collector.ShouldProbeHealth` | internal/collector/micronaut.go:119-132 | a changed process start forgets the capability; only an absent endpoint is not probed |
| `Micronaut.RemembersLastStart` | internal/collector/micronaut.go:119-157 | the remembered start is the last reported one, whatever failed since |
| `Micronaut.CapabilityIsFirstAnswer` | internal/collector/micronaut.go:97-157 | the capability is what the first conclusive answer since the last observed restart said |
| `Micronaut.SkipsOnlyAfterAccepted404` | internal/collector/micronaut.go:97-114 | a probe is skipped only if, since the last observed restart, a 404 was accepted as optional with good metrics |
| `Micronaut.AvailableNeverTurnsAbsentSilently` | internal/collector/micronaut.go:101-105 | a known-available endpoint stays available until a restart is observed, and every failed read of it warns |

## Left out

- HTTP clients, redirects, authentication, compression, content types and URL checks: a scrape is a list of samples and possibly a failure.
- SQLite itself, transactions, migrations and the schema text: tables are sequences, a call is committed or not.
- Other targets in the same database: one target is modelled, and ids need only be new; target names and their checks do not appear.
- Two samples of one poll under the same key: samples are a map, as every collector writes them.
- IEEE rounding and the order of float additions: values are reals, with the greatest finite number as a parameter, so the sorted key order of the Caddy totals does not show in any sum.
- Invalid UTF-8 in label values and metric text: strings hold Unicode scalar values, so the parser's validity check never fails here.
- The scanner that cuts lines: its lines and the error it ends with are parameters, a line too long for its buffer among them.
- Hash collisions of the Micrometer fingerprint: identities are the label multisets themselves.
- Micrometer's runtime gauges (processor, heap, process start, uptime) and their partial-metrics warnings: range checks without state beyond one value.
- The label validator of each framework, Spring, Quarkus and StatLite-metrics collectors, and host samplers: long but shallow mappings.
- Choosing one processor unit for a dashboard chart and its notices: it only clears values of one gauge.
- The polling loop's timing and its one follow-up poll after start: it adds a poll, which any run of the machines may have anyway.
- Constructor checks, and the not-configured error of collectors other than Caddy's: they return before any state is read.
- Locks of the monitor and the collectors: their calls are serialized, so that a run is a sequence of calls; only the lock-free maximum is modelled with interleavings.
- Legacy RFC 3339 rows mixed with sortable ones: the legacy parser is a parameter, and order is claimed for the sortable form only.
- Clocks that go backwards and runs that interleave, where a claim needs them not to: the plain series laws, the runs of `MonitorRuns` and the parser claims do not need this.
- Configuration files, command line, dashboard pages, the JSON API around the public read, and example applications.
- Sampling.SampledTotalAtMostNative: is a bound; the exact difference is stated in `SamplingGaps`, and bucket by bucket in `SamplingLoss` for runs that carry the counter.
- Prometheus.QuotedValue: does not check the unescaped value for valid UTF-8, because strings hold Unicode scalar values.
