# Performance-monitoring feature tables, modelled in Dafny

This project models the part of the performance-monitoring prototypes that turns machine signal
records and error records into aggregate tables. It covers five pieces:

- **Session features** (`vizualization/app2.py`). `DataProcessor.extract_features` writes the
  `date`, `hour` and `session_id` columns into the signal log. A session ends where the calendar
  date changes or where more than two hours pass between consecutive records. The method returns
  one feature row per session of at least two records. `OverviewTab.render` then rolls those rows
  up per day.
- **Daily feature vectors** (`vizualization/ver_3/var_bek/create_vectors.py`). `get_value` gives
  each record a numeric value. The script then builds one row per date. Each row has a count and a
  mean per signal of the whole log, plus day totals, value statistics and shares.
- **Error clustering** (`ver_1/app/core/clustering.py`). `clusterize_errors` one-hot encodes the
  error codes and builds the feature matrix. The scaler and KMeans (an oracle here) label every row.
  The labels are written into the caller's frame, and `parameter_value` is summarised per cluster.
- **The analytics dashboard** (`vizualization/app3.py`). This covers the `Session` record, the
  counting and clamping in the session generator, and the daily and monthly stability series. It
  also covers the cluster counts and percentages, the comparison table and the (date, cluster)
  heatmap.
- **Error chart data** (`vizualization/ver_1/app/visual/charts.py`). This covers the export-date
  column, errors per day with the "last N days" cut, the top error codes, the scatter axes and the
  box plot's default column.

Modules: `Wrappers` (Option, Result), `Seqs` (group-by, counts, sums, min/max/mean, sample
variance, sorted distinct keys), `Calendar` (minutes, day numbers, months), `Records` (the signal
record), `ErrorTables` (the error frame), `Sessions`, `DailyVectors`, `Clustering`, `Charts` and
`Dashboard`.

Encoding choices:
- Timestamps are integer minutes since 1970-01-01. The logs are read at minute precision.
- Dates are day numbers, and a month is `year * 12 + month - 1`.
- Ratios and means are `real`.
- A pandas frame is a record of optional columns; a missing column is `None`.
- A cell pandas reads as NaN is `None`.
- Where the source writes into the caller's frame, the frame is a class (`Sessions.SignalFrame`,
  `ErrorTables.ErrorFrame`) and the method says exactly which columns change.

Points of the source the model follows as written:
- Sessions are split over the whole log, not per entity (vizualization/app2.py:168).
- A cluster with a single row has a NaN standard deviation in `cluster_stats`, not 0
  (ver_1/app/core/clustering.py:17).
- `create_vectors.py` computes the rare-signal ratio per distinct signal, while `app2.py`
  computes it per record.

## Model

| member | source | states |
|---|---|---|
| `Calendar.HourOf` | vizualization/app2.py:167 | the hour of a record's timestamp lies in 0..23 |
| `Calendar.DayOfMonotone` | vizualization/app2.py:166 | a later timestamp never falls on an earlier calendar date |
| `Calendar.Jan1st2025IsThatDate` | vizualization/ver_1/app/visual/charts.py:11 | the fallback date constant is the day number of 2025-01-01 |
| `Sessions.SignalFrame.ExtractFeatures` | vizualization/app2.py:164-201 | writes the date, hour and session-id columns into the frame in place, leaves the records unchanged, and returns the session table |
| `Sessions.SplitSessions` | vizualization/app2.py:165-167 | the date and hour columns are each record's date and hour, and the session ids are the ngroup ranks of the (date, gap count) keys |
| `Sessions.SessionRows` | vizualization/app2.py:169-199 | given the annotated columns, the loop over session ids returns exactly the session table: the feature rows of the sessions with at least two records, in session order |
| `Sessions.SessionBoundary` | vizualization/app2.py:168 | two consecutive records are in different sessions exactly when the date changes or the gap is strictly more than 120 minutes; a gap of exactly two hours does not split |
| `Sessions.RankInjective` | vizualization/app2.py:168 | ngroup gives two records the same session id exactly when they share the (date, gap count) key |
| `Sessions.SessionIdBelowCount` | vizualization/app2.py:168 | every session id is below the number of distinct sessions |
| `Sessions.SortedFirstSessionId` | vizualization/app2.py:168 | for a time-ordered log the first record is in session 0 |
| `Sessions.SortedSessionIdStep` | vizualization/app2.py:168 | for a time-ordered log the session id goes up by exactly one at each boundary and stays put otherwise |
| `Sessions.DurationPositive` | vizualization/app2.py:175 | a session's duration (last minute minus first minute plus 1) is at least 1 |
| `Sessions.SessionTimingFacts` | vizualization/app2.py:175-177 | a row carries its session id, the date of its first record, its record count, a duration of max minus min plus 1 (at least 1), and signals_per_min = total / duration |
| `Sessions.SessionRatioFacts` | vizualization/app2.py:179-189 | the discrete share (type 11) and analog share (type 17) each lie in [0,1] and sum to at most 1, and to exactly 1 when every record is type 11 or 17 |
| `Sessions.SessionUniqueFacts` | vizualization/app2.py:191-195 | unique_discrete <= total_unique_signals <= total_signals |
| `Sessions.SessionRareAndAnalogFacts` | vizualization/app2.py:192-198 | rare_signal_ratio is the share of records whose signal occurs once in the session, in [0,1]; the analog mean and maximum are 0 without analog records, and the spread is 0 with fewer than two |
| `Sessions.SessionTableFacts` | vizualization/app2.py:170-199 | at most one row per session, in ascending session-id order, each row the features of a session of at least two records |
| `Sessions.SessionTableCovers` | vizualization/app2.py:171-173 | every session of at least two records has a row |
| `Sessions.SessionTableRowFacts` | vizualization/app2.py:172-198 | every emitted row has total_signals >= 2, duration >= 1, discrete, analog and rare ratios each in [0,1] with the first two summing to at most 1, and the unique-count ordering |
| `Sessions.DailyStats` | vizualization/app2.py:367-375 | the roll-up fails (the KeyError on the column-less frame) exactly when no session has two records, that is when the feature table is empty |
| `Sessions.DailyStatsDates` | vizualization/app2.py:370-375 | when the roll-up succeeds it has one row per distinct session date, in ascending order |
| `Sessions.DailyStatsTotals` | vizualization/app2.py:370-375 | when the roll-up succeeds, each day's total_signals_day and total_duration_day are the sums over that date's sessions, and the daily totals add up to the totals over all sessions |
| `DailyVectors.GetValue` | vizualization/ver_3/var_bek/create_vectors.py:14-20 | Text for type 11, Double for type 17, 0.0 for any other type or an empty cell; a nonzero value always comes from the cell its type names |
| `DailyVectors.AllSignals` | vizualization/ver_3/var_bek/create_vectors.py:25 | ALL_SIGNALS is exactly the signals of the log, sorted and without repeats |
| `DailyVectors.DaysOf` | vizualization/ver_3/var_bek/create_vectors.py:30 | the date groups are exactly the dates of the log, ascending and without repeats |
| `DailyVectors.SignalColumns` | vizualization/ver_3/var_bek/create_vectors.py:37-39 | the inner loop fills one count key and one mean key for every signal of the list |
| `DailyVectors.CreateVectors` | vizualization/ver_3/var_bek/create_vectors.py:11-58 | the script's loops build exactly the records list DailyVectors and return the frame DailyFrame: None for a log without records, the rows otherwise |
| `DailyVectors.DailyFrame` | vizualization/ver_3/var_bek/create_vectors.py:54-58 | the sort fails (the KeyError on the frame without a Date column) exactly when the log has no records |
| `DailyVectors.SignalCountPositive` | vizualization/ver_3/var_bek/create_vectors.py:34-38 | a signal's count that day is nonzero exactly when the signal occurs that day |
| `DailyVectors.VectorKeys` | vizualization/ver_3/var_bek/create_vectors.py:37-39 | a row has count and mean keys for exactly the signals it is given; an absent signal gets count 0 and mean 0 |
| `DailyVectors.VectorCountsSum` | vizualization/ver_3/var_bek/create_vectors.py:38-42 | the per-signal counts add up to total_signals |
| `DailyVectors.VectorUniqueSignals` | vizualization/ver_3/var_bek/create_vectors.py:34-43 | unique_signals is the number of signals with a nonzero count |
| `DailyVectors.VectorRareRatio` | vizualization/ver_3/var_bek/create_vectors.py:50 | rare_signal_ratio is (signals counted exactly once) / (signals counted at all), in [0,1] |
| `DailyVectors.VectorValueStats` | vizualization/ver_3/var_bek/create_vectors.py:44-47 | min_value <= avg_value <= max_value; the spread is never negative and is 0 for a single record |
| `DailyVectors.VectorShares` | vizualization/ver_3/var_bek/create_vectors.py:48-49 | discrete_ratio and analog_ratio are the type-11 and type-17 shares, each in [0,1], summing to at most 1 |
| `DailyVectors.DailyRow` | vizualization/ver_3/var_bek/create_vectors.py:30-52 | row i of df_daily is the row built from the records of the i-th date |
| `DailyVectors.DailyVectorsOrdered` | vizualization/ver_3/var_bek/create_vectors.py:55-58 | the records are in strictly ascending date order, so the final sort leaves them in place |
| `DailyVectors.DailyVectorsCoverDates` | vizualization/ver_3/var_bek/create_vectors.py:30 | there is a row for the date of every record, and every row's date is some record's date |
| `DailyVectors.DailyVectorKeys` | vizualization/ver_3/var_bek/create_vectors.py:25-39 | every row has the same keys, a count and a mean per signal of the whole log, with 0 for an absent signal |
| `DailyVectors.DailyCountsSum` | vizualization/ver_3/var_bek/create_vectors.py:37-42 | in every row the counts over ALL_SIGNALS add up to total_signals |
| `DailyVectors.DailyRowFacts` | vizualization/ver_3/var_bek/create_vectors.py:43-50 | per row: unique_signals, the per-signal rare ratio in [0,1], min <= avg <= max, a zero spread for one record, and shares in [0,1] that sum to at most 1 |
| `Clustering.Categories` | ver_1/app/core/clustering.py:9 | the indicator columns are the distinct error codes, sorted, one each |
| `Clustering.OneHotExactlyOne` | ver_1/app/core/clustering.py:9 | every row has exactly one indicator set, the one in its own code's column |
| `Clustering.FeatureMatrixShape` | ver_1/app/core/clustering.py:11 | X has one row per input row, each parameter_value followed by one indicator per code, set exactly where the row's code is that column's code |
| `Clustering.OccurringLabels` | ver_1/app/core/clustering.py:17 | the group keys are exactly the labels that occur, ascending |
| `Clustering.ClusterStatsLabels` | ver_1/app/core/clustering.py:17 | cluster_stats has one row per label that occurs, in ascending label order |
| `Clustering.ClusterStatRow` | ver_1/app/core/clustering.py:17 | each row's count is the number of rows with its label; its mean lies between their smallest and largest parameter_value; the spread is NaN exactly for a one-row cluster |
| `Clustering.ClusterStatsCountTotal` | ver_1/app/core/clustering.py:17 | the counts add up to the number of input rows |
| `Clustering.ClusterizeErrors` | ver_1/app/core/clustering.py:6-21 | on success, each row gets a label in [0, k) written into the caller's frame in place, nothing else changes, and the stats of those labels are returned; otherwise it returns the error the code raises and leaves the frame unchanged |
| `Charts.EnsureExportTimeDate` | vizualization/ver_1/app/visual/charts.py:6-19 | without the column every row is dated 2025-01-01; otherwise each parseable cell becomes its date and every other cell NaT; the caller's frame is a value and is not changed |
| `Charts.CountsPerDateFacts` | vizualization/ver_1/app/visual/charts.py:22-23 | one count per distinct date, ascending, each counting that date's rows, and the counts add up to the dated rows |
| `Charts.ErrorsByDayWithoutColumn` | vizualization/ver_1/app/visual/charts.py:21-25 | without export_time there is a single bar, 2025-01-01, counting every row |
| `Charts.TailFacts` | vizualization/ver_1/app/visual/charts.py:25 | tail(n) is a suffix of length min(n, size), or size + n for a negative n |
| `Charts.TailAscending` | vizualization/ver_1/app/visual/charts.py:24-25 | the tail of ascending bars is ascending, and every date it drops is earlier than every date it keeps |
| `Charts.ErrorsByDay` | vizualization/ver_1/app/visual/charts.py:20-27 | days None or 0 keeps all dates; a positive days keeps the latest min(days, all) dates, a negative one drops the earliest -days; the bars shown are a suffix in ascending date order and every dropped date is earlier than every kept one |
| `Charts.LastDaysCut` | vizualization/ver_1/app/visual/charts.py:24-25 | the days cut of ascending bars is a suffix of the requested length, ascending, dropping only earlier dates |
| `Charts.ErrorCodeDistribution` | vizualization/ver_1/app/visual/charts.py:30-38 | the "no data" figure (None) comes exactly when error_code is missing |
| `Charts.ValueCountsFacts` | vizualization/ver_1/app/visual/charts.py:36 | value_counts lists every code once with its number of rows, most frequent first |
| `Charts.TopCodes` | vizualization/ver_1/app/visual/charts.py:36-38 | at most top_n codes are kept, a prefix of value_counts, and no dropped code is more frequent than a kept one |
| `Charts.ScatterFacts` | vizualization/ver_1/app/visual/charts.py:52-70 | one point per row; x is the parsed export_time, or the positions 0..n-1 when the column is absent or unparseable; y is parameter_value or 0; the figure fails without error_code |
| `Charts.BoxByCluster` | vizualization/ver_1/app/visual/charts.py:72-81 | without cluster it returns "clusters not found" and leaves the frame alone; otherwise a missing parameter_value is written into the caller's frame as zeros |
| `Dashboard.GenerateSessions` | vizualization/app3.py:36-84 | the generator's loops build exactly the session list Generated, with the counter equal to the sessions made so far |
| `Dashboard.GeneratedCount` | vizualization/app3.py:40-45 | days days give between 3 * days and 7 * days sessions |
| `Dashboard.GeneratedSerials` | vizualization/app3.py:38-45 | the counter numbers the sessions 1, 2, 3, ... in order |
| `Dashboard.GeneratedIdsUnique` | vizualization/app3.py:66 | no two generated sessions share an id |
| `Dashboard.GeneratedDates` | vizualization/app3.py:40-41 | each id carries its session's date; the dates run from days before today onward and never go back |
| `Dashboard.MakeSessionFacts` | vizualization/app3.py:62-70 | a session lasts at least 5 minutes, has at least 10 signals, and signals_per_minute = signals / duration |
| `Dashboard.GeneratedSessionFacts` | vizualization/app3.py:46-70 | every generated session has the clamped duration and signal count, the derived rate, and a cluster in {0,1,2} |
| `Dashboard.StabilityBounds` | vizualization/app3.py:189-190 | stability is 100 * stable / sessions, in [0,100] |
| `Dashboard.DailyStability` | vizualization/app3.py:180-192 | pandas fails exactly when there are no sessions |
| `Dashboard.DailyStabilityFacts` | vizualization/app3.py:189-192 | one value per distinct date, ascending, each 100 * (cluster-0 sessions) / (that date's sessions), in [0,100] |
| `Dashboard.MonthlySummary` | vizualization/app3.py:214-230 | pandas fails exactly when there are no sessions |
| `Dashboard.MonthlySummaryFacts` | vizualization/app3.py:224-230 | one row per year-month, ascending, with that month's stability percent in [0,100] and its mean rate |
| `Dashboard.ClusterPercent` | vizualization/app3.py:331-332 | the share fails (division by zero) exactly when there are no sessions |
| `Dashboard.StableCount` | vizualization/app3.py:289 | counting label 0 is counting the stable sessions |
| `Dashboard.ClusterCountsTotal` | vizualization/app3.py:329-331 | with labels in {0,1,2} the three cluster counts add up to the number of sessions |
| `Dashboard.ClusterPercentsTotal` | vizualization/app3.py:329-332 | the three cluster percentages add up to 100 |
| `Dashboard.OverviewFacts` | vizualization/app3.py:286-297 | the overview cards show the session count, the cluster-0 percentage in [0,100], and a mean rate between the slowest and fastest session |
| `Dashboard.ClusterComparison` | vizualization/app3.py:343-353 | the loop over cids 0, 1, 2 builds exactly the comparison rows |
| `Dashboard.ComparisonRowAt` | vizualization/app3.py:345-353 | each comparison row averages the sessions of its own cluster, which has at least one |
| `Dashboard.ComparisonRowsComplete` | vizualization/app3.py:344-347 | every listed cluster that has sessions gets a row |
| `Dashboard.ComparisonRowsOrdered` | vizualization/app3.py:344-347 | rows come in the order of the listed clusters |
| `Dashboard.ClusterComparisonFacts` | vizualization/app3.py:343-353 | there is a row exactly for each cluster 0, 1, 2 that has sessions, in that order, named after it, with its average duration between its shortest and longest session |
| `Dashboard.ClusterHeatmapAsWritten` | vizualization/app3.py:156-177 | the heatmap as written fails exactly when there are no sessions |
| `Dashboard.HeatmapRows` | vizualization/app3.py:166-167 | the heatmap rows are exactly the dates with sessions, ascending |
| `Dashboard.HeatmapAsWrittenCounts` | vizualization/app3.py:166-167 | the pivot as written has one column per cluster that occurs, and each cell counts the sessions of its (date, cluster) pair |
| `Dashboard.HeatmapAsWrittenMislabels` | vizualization/app3.py:166-171 | with no noisy session, the column labelled "Noisy" shows the anomalous count |
| `Dashboard.ClusterHeatmap` | vizualization/app3.py:166-174 | the corrected heatmap fails exactly when there are no sessions |
| `Dashboard.PairCountsTotal` | vizualization/app3.py:166-167 | with labels in {0,1,2} a date's three cluster counts add up to that date's sessions |
| `Dashboard.ClusterHeatmapFacts` | vizualization/app3.py:166-174 | corrected heatmap: columns 0, 1, 2 under their own names, each cell the count for its (date, cluster) pair (0 when there are none), and each row summing to that date's sessions |

## Left out

- Rendering: every NiceGUI and Plotly call, figure styling, titles, tabs, cards, and the `:.1f` and `round` formatting. The chart functions return the data a figure is drawn from.
- File I/O: `DataLoader.load_from_file`, `read_csv` and `to_csv` in `create_vectors.py`, and the loaders and generators of the other scripts. Records arrive as already-parsed sequences.
- Randomness: the draws of `DataGenerator.generate_sessions` (`vizualization/app3.py`) are a parameter (`Dashboard.SessionDraw`), as is "today" from `datetime.now()`. Only the counting, the clamps and the derived fields are modelled. The 0.6/0.25/0.15 cluster probabilities are not modelled, only that the label is 0, 1 or 2.
- `Dashboard.GeneratedDates`: the source calls `datetime.now()` once per day offset (vizualization/app3.py:39), so a run that crosses midnight can skip a date and reach today. The model reads the clock once, and its bound that every date lies before today holds only for that single reading.
- StandardScaler and KMeans are one oracle, a function from the feature matrix to labels. It is assumed to return one label in [0, k) per row whenever 1 <= k <= rows. Its fitted model object is not returned. PCA in `vizualization/app2.py` is left out as well.
- Square roots: every standard deviation (`std_analog`, `std_value`, the `std` of `cluster_stats`) is carried as its square, the sample variance with denominator n - 1.
- Floating point: values are exact reals, so rounding error and overflow are not modelled.
- `DailyVectors.GetValue`: a pandas CSV reads an empty cell as NaN, not `""`, so in the source an empty cell can bypass the 0.0 default. The model reads every empty cell as the 0.0 default.
- `DailyVectors.GetValue`: `float()` on a Text or Double cell that is not a number raises ValueError and stops `create_vectors.py` (vizualization/ver_3/var_bek/create_vectors.py:16,18). The model's cells are already numbers or empty, so this failure is not modelled; only `app2.py`'s loader turns such a cell into NaN.
- `Charts.EnsureExportTimeDate`: without the column, the source writes the timestamp 2025-01-01 00:00 rather than a date. The model gives the date. For grouping this is the same single key.
- `Charts.ValueCounts`: pandas does not promise an order among codes with equal counts. The model keeps them in first-occurrence order. `Charts.TopCodes` claims only what holds for any order of ties.
- `Charts.ScatterClusters`: the `color` and hover options are kept only as data (the cluster column, the error codes). Plotly's failure on a missing `error_code` hover column is the only error modelled.
- `Clustering.ClusterizeErrors`: it does not model a pre-existing column whose name merely contains `error_code_` being picked up as a feature. Error codes are strings, and a NaN code (which gets no indicator) is not modelled.
- `Sessions.SignalFrame.ExtractFeatures`: the `avg_discrete_active` mean treats `Text` as numeric. Text cells that are not numbers are not modelled.

## Findings

| source | as written | input that shows it | evidently intended | confidence | as-written member | corrected member |
|---|---|---|---|---|---|---|
| vizualization/app3.py:166-171 | the pivot's columns are only the clusters that occur, but the x labels are always "Stable", "Noisy", "Anomalous" | one day with one stable (0) and one anomalous (2) session: the pivot has columns 0 and 2, so the "Noisy" column shows the anomalous session | reindex the pivot to the clusters 0, 1, 2 (0 where absent), so that each label sits over its own cluster | high (not executed) | `Dashboard.HeatmapAsWrittenMislabels` | `Dashboard.ClusterHeatmapFacts` |
