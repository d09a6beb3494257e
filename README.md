# Ethereum weekend-effect analysis: a Dafny model of its core logic

The analysed program collects one year of Ethereum activity from the Etherscan API and tests
whether weekdays are busier than weekends. This project models the parts of it that are exact
logic and proves their properties. Two groups of files make up the model.

**Data collection** (`eth_trading_patterns.py`):

- the block-sampling estimator `_estimate_tx_count`. It samples up to five evenly spaced blocks
  of a day's block range, skips the samples whose fetch fails, and extrapolates the average
  count to the whole range with `int()`;
- the record-or-nothing rule of `get_daily_transaction_count`;
- the `while` loop in `main` that keeps the successful days;
- the calendar columns of `TradingPatternAnalyzer` (`day_of_week`, `day_name`, `is_weekend`);
- the Monday..Sunday reindex of `analyze_day_of_week_effect`.

**Significance testing** (`statistical_tests.py`):

- the weekday/weekend partition;
- the sign of Cohen's d and its four bands;
- the three-tier p-value labels of the t-test, the Mann-Whitney test and the ANOVA;
- the 95% confidence interval;
- the seven day-of-week groups handed to the ANOVA;
- the console verdict, which needs both tests, and the saved summary's verdict, which uses the
  t-test alone.

Modules:

- `Wrappers` (`wrappers.dfy`): `Option`.
- `SeqMath` (`seq_math.dfy`): `Sum` and `Mean`.
- `VolumeEstimator` (`volume_estimator.dfy`): the estimator. The `EstimateTxCount` method has
  the source's two loops and is proved equal to the specification function `Estimate`.
- `DataCollection` (`data_collection.dfy`): `DailyRecord` with its method
  `GetDailyTransactionCount`, and `Collected` with the driver loop `CollectDays`.
- `TradingPatterns` (`trading_patterns.dfy`): the data frame as a sequence of `Row`s, the
  `TradingPatternAnalyzer` class, the row selections (boolean masks) and the reindex.
- `StatisticalTests` (`statistical_tests.dfy`): the decision logic of
  `perform_statistical_tests`, `calculate_effect_size`, `interpret_cohens_d` and the summary.

Foreign inputs become parameters:

- `fetch: int -> Option<nat>` stands for `_get_block_tx_count`. It returns `None` on an HTTP
  error or an empty result.
- `locate: (int, Closest) -> Option<int>` stands for the timestamp conversion plus
  `_get_block_by_timestamp`. An exception or a status other than `'1'` is `None`.
- `calendar: int -> DayIndex` stands for pandas' `dt.dayofweek`.
- Dates are day numbers, and `timedelta(days=1)` is `+ 1`.
- scipy's statistics and p-values, and numpy's `pooled_std` and `se_diff` (square roots), are
  the fields of a `Numerics` value.

Notable behaviours of the code, which the model keeps:

- the estimate is truncated by `int()`, not rounded;
- a day whose block lookups succeed but whose sample fetches all fail is kept, with `tx_count`
  0;
- days without rows give empty ANOVA groups, which are passed on unchanged;
- the saved summary's conclusion uses the t-test alone, while the console verdict needs the
  t-test and the Mann-Whitney test.

## Model

| member | source | states |
|---|---|---|
| VolumeEstimator.Step | eth_trading_patterns.py:104 | the sampling step `max(1, (end-start)//5)` is at least 1 |
| VolumeEstimator.SampleBlocks | eth_trading_patterns.py:103-109 | at most five blocks are sampled, the i-th being `start + i*step` |
| VolumeEstimator.SampleBlocksUpTo | eth_trading_patterns.py:103-109 | the first `n` iterations of the sampling loop append at most `n` blocks |
| VolumeEstimator.CandidateKept | eth_trading_patterns.py:106-109 | candidate `i` passes `block_num <= end_block` iff `i < min(5, end-start+1)` |
| VolumeEstimator.SampleBlocksUpToClosedForm | eth_trading_patterns.py:103-109 | after `n` iterations the list holds the first `min(n, 5, end-start+1)` candidates `start + i*step` |
| VolumeEstimator.SampleBlocksCount | eth_trading_patterns.py:103-109 | exactly `min(5, end-start+1)` blocks are sampled (none when end < start); block `i` is `start + i*step` |
| VolumeEstimator.SampleBlocksOrderedInRange | eth_trading_patterns.py:103-109 | the samples strictly increase, lie in `[start, end]`, and the first is `start` |
| VolumeEstimator.Successes | eth_trading_patterns.py:114-118 | `valid_samples` never exceeds the number of sample blocks |
| VolumeEstimator.SuccessesAppend | eth_trading_patterns.py:114-118 | accumulating over two runs of blocks is accumulating over each in turn |
| VolumeEstimator.FailedFetchSkipped | eth_trading_patterns.py:115-118 | a block whose fetch is `None` changes neither `total_tx` nor `valid_samples` |
| VolumeEstimator.ZeroCountIsASample | eth_trading_patterns.py:115-118 | a fetch of 0 is a valid sample: it adds one to `valid_samples` and nothing to `total_tx` |
| VolumeEstimator.AllFailedNoSuccesses | eth_trading_patterns.py:114-118 | when every fetch fails there are no valid samples |
| VolumeEstimator.SuccessesFromBlocks | eth_trading_patterns.py:114-118 | every counted transaction count is the fetch result of some sampled block |
| VolumeEstimator.Trunc | eth_trading_patterns.py:124 | `int()` truncates toward zero: for `x >= 0` the result is the largest integer not above `x`, for `x < 0` the smallest not below it |
| VolumeEstimator.Extrapolate | eth_trading_patterns.py:122-124 | the truncated extrapolation of non-negative totals over a non-negative block count is non-negative (computed in exact rationals) |
| VolumeEstimator.Estimate | eth_trading_patterns.py:103-126 | the value `_estimate_tx_count` returns for a range is never negative |
| VolumeEstimator.EstimateTxCount | eth_trading_patterns.py:97-126 | the two-loop estimator returns the specification value `Estimate` of the range |
| VolumeEstimator.EstimateAllFailed | eth_trading_patterns.py:121-126 | if every sample fetch fails the estimate is 0 |
| VolumeEstimator.ExtrapolateIsFloor | eth_trading_patterns.py:122-124 | for non-negative totals, the model's exact-rational extrapolation is the floor of the exact product and equals `total_tx*total_blocks // valid_samples` |
| VolumeEstimator.EstimateIsExtrapolation | eth_trading_patterns.py:121-126 | the estimate is non-negative; 0 without valid samples; otherwise the range is non-empty and the estimate is the truncated extrapolation |
| VolumeEstimator.EstimateSingleBlock | eth_trading_patterns.py:104-124 | a one-block range whose fetch gives `c` is estimated at exactly `c` |
| SeqMath.Mean | statistical_tests.py:90 | `np.mean` (also at statistical_tests.py:77 and 84 and in the `agg` of eth_trading_patterns.py:183): the mean times the number of values is their sum |
| SeqMath.SumNonNegative | eth_trading_patterns.py:117 | a total of non-negative transaction counts is non-negative |
| DataCollection.Truthy | eth_trading_patterns.py:63 | a block lookup counts as found unless it is `None` or block 0 |
| DataCollection.DailyRecord | eth_trading_patterns.py:57-77 | a day's record, when there is one, carries that date and a non-negative `tx_count` |
| DataCollection.GetDailyTransactionCount | eth_trading_patterns.py:57-77 | the method returns the specification value `DailyRecord` of the date |
| DataCollection.RecordOrNothing | eth_trading_patterns.py:63-77 | a record exists iff both block lookups are non-`None` and non-zero; it carries the date, both blocks and their non-negative estimate |
| DataCollection.AllSamplesFailedStillRecorded | eth_trading_patterns.py:63-73 | a day with good block lookups but only failed sample fetches is still recorded, with `tx_count` 0 |
| DataCollection.Collected | eth_trading_patterns.py:279-290 | the driver keeps at most as many records as the range has dates |
| DataCollection.CollectDays | eth_trading_patterns.py:279-290 | the driver loop returns the specification value `Collected` of the date range |
| DataCollection.CollectedAscending | eth_trading_patterns.py:279-290 | the kept records have strictly increasing dates inside the range, so each date appears at most once |
| DataCollection.CollectedExactly | eth_trading_patterns.py:282-289 | each kept record is that date's `DailyRecord`, and every date of the range with a record is kept |
| TradingPatterns.DayName | eth_trading_patterns.py:160 | the name of day index d sits at position d of the Monday-first `day_order` and at no other position |
| TradingPatterns.WithCalendarColumns | eth_trading_patterns.py:158-161 | the row keeps the record's date, count and blocks, takes `day_of_week` from the calendar, and its `day_name` and `is_weekend` are consistent with that day |
| TradingPatterns.IsWeekend | eth_trading_patterns.py:161 | `day_of_week.isin([5, 6])` holds exactly for day indices 5 and 6 |
| TradingPatterns.WeekendIsSaturdayOrSunday | eth_trading_patterns.py:159-161 | `is_weekend` holds exactly on the days named Saturday and Sunday |
| TradingPatterns.DayNameInjective | eth_trading_patterns.py:159-160 | distinct `day_of_week` values have distinct `day_name`s |
| TradingPatterns.TradingPatternAnalyzer.constructor | eth_trading_patterns.py:155-161 | one row per record, keeping its columns, with `day_of_week` from the calendar and consistent `day_name` and `is_weekend` columns |
| TradingPatterns.TradingPatternAnalyzer.AnalyzeDayOfWeekEffect | eth_trading_patterns.py:181-187 | one row per present day name, in reindexed order, each with the mean and the count (at least one) of that day's `tx_count` |
| TradingPatterns.DayStatOf | eth_trading_patterns.py:183 | the row of a present day name has that name, the mean of its `tx_count` and its row count, at least one |
| TradingPatterns.TxWhere | statistical_tests.py:66-67 | a boolean-mask selection has no more values than the frame has rows |
| TradingPatterns.TxWhereAgreeing | statistical_tests.py:66-67 | masks that agree on every row select the same counts |
| TradingPatterns.TxWhereComplement | statistical_tests.py:66-67 | a mask and its negation split the rows: the sizes add up and the two selections together hold every count once |
| TradingPatterns.TxWhereMembers | statistical_tests.py:66-67 | a count is selected iff some row the mask keeps has that count |
| TradingPatterns.TxWhereSelected | statistical_tests.py:66-67 | every selected count comes from a row the mask keeps |
| TradingPatterns.TxWhereAppend | statistical_tests.py:66-67 | selecting from two runs of rows is selecting from the first and then from the second, so the selection keeps row order |
| TradingPatterns.TxWhereSingle | statistical_tests.py:66-67 | one row contributes its count exactly once when the mask keeps it and nothing otherwise |
| TradingPatterns.DayTx | statistical_tests.py:183-184 | the counts of one day name are no more than the rows, each the count of a row with that `day_name` (the same per-name selection as the `groupby` at eth_trading_patterns.py:183) |
| TradingPatterns.NamesPresent | eth_trading_patterns.py:183-187 | the `groupby('day_name')` index holds the name of every row, and is empty exactly when the frame is |
| TradingPatterns.PresentNameHasRows | eth_trading_patterns.py:183-187 | a day name in the grouped index has at least one row |
| TradingPatterns.IndexOf | eth_trading_patterns.py:186-187 | the position found in `day_order` holds the name, and equals the length exactly when the name is absent |
| TradingPatterns.PresentDayIndices | eth_trading_patterns.py:187 | scanning the first `n` entries of `day_order` keeps at most `n` of them |
| TradingPatterns.PresentDayOrder | eth_trading_patterns.py:186-187 | the reindex has at most seven entries, each a name of `day_order` that is present |
| TradingPatterns.PresentDayIndicesOrdered | eth_trading_patterns.py:187 | the kept day indices strictly increase and are exactly the present ones |
| TradingPatterns.PresentDayOrderMembers | eth_trading_patterns.py:186-187 | the reindex lists a name iff it is in `day_order` and present, in Monday..Sunday order |
| StatisticalTests.WeekdayTx | statistical_tests.py:66 | the weekday group has no more counts than the frame has rows, each the count of some row that is not a weekend (exactly once per such row, in row order, by `TxWhereAppend` and `TxWhereSingle`) |
| StatisticalTests.WeekendTx | statistical_tests.py:67 | the weekend group has no more counts than the frame has rows, each the count of some weekend row (exactly once per such row, in row order, by `TxWhereAppend` and `TxWhereSingle`) |
| StatisticalTests.PartitionSplitsRows | statistical_tests.py:66-67 | every row goes to exactly one of weekday or weekend: the sizes sum to the row count and the groups together hold every count |
| StatisticalTests.PartitionByDayOfWeek | statistical_tests.py:25-27 | on a frame with derived calendar columns, the weekend group is the rows with `day_of_week` in {5,6} and the weekday group the rows in {0..4} |
| StatisticalTests.PooledVariance | statistical_tests.py:41 | with both groups non-empty, the expression under the square root lies between the two sample variances given to it (a one-element group, whose sample variance is NaN in the source, is under "Left out") |
| StatisticalTests.CohensD | statistical_tests.py:35-46 | d times `pooled_std` is the weekday mean minus the weekend mean |
| StatisticalTests.CohensDSign | statistical_tests.py:41-44 | with `pooled_std > 0`, d is positive iff the weekday mean is higher, negative iff lower, and swapping the groups negates it |
| StatisticalTests.CohensDBusierWeekdays | statistical_tests.py:44 | weekday counts 100, 110, 120 against weekend counts 50, 60, 70 give a positive d |
| StatisticalTests.InterpretCohensD | statistical_tests.py:49-59 | "negligible" exactly when `abs(d) < 0.2`, "large" exactly when `abs(d) >= 0.8` |
| StatisticalTests.InterpretCohensDBands | statistical_tests.py:49-59 | the returned word is "negligible", "small", "medium" or "large" exactly when `abs(d)` is in [0,0.2), [0.2,0.5), [0.5,0.8) or [0.8,∞), and d and -d get the same band |
| StatisticalTests.InterpretCohensDMonotone | statistical_tests.py:51-59 | a larger `abs(d)` never gets a lower band |
| StatisticalTests.SignificanceOf | statistical_tests.py:120-127 | a label other than "not significant" exactly when p < 0.05, "highly significant" exactly when p < 0.001 |
| StatisticalTests.SignificanceThresholds | statistical_tests.py:120-127 | each label is a p-value interval: below 0.001, [0.001,0.01), [0.01,0.05), at least 0.05 |
| StatisticalTests.SignificanceMonotone | statistical_tests.py:137-144 | a smaller p-value never gets a weaker label |
| StatisticalTests.LooksNormal | statistical_tests.py:101-110 | a p-value read as "normally distributed" (p > 0.05) would never be labelled significant |
| StatisticalTests.FivePercentBoundary | statistical_tests.py:100-110 | at p = 0.05 a sample reads neither as normal nor as significant: both comparisons are strict |
| StatisticalTests.ConfidenceInterval | statistical_tests.py:165-171 | with `se_diff >= 0` the interval contains the difference and is symmetric, with half-width `1.96*se_diff` |
| StatisticalTests.AnovaGroups | statistical_tests.py:183-186 | there are always seven groups, one per day of `day_order` |
| StatisticalTests.AnovaGroupByDay | statistical_tests.py:183-184 | group `k` holds the rows whose `day_of_week` is `k` |
| StatisticalTests.AnovaGroupEmpty | statistical_tests.py:183-186 | a day without rows gives an empty group, which is passed on |
| StatisticalTests.AnovaGroupsCoverRows | statistical_tests.py:183-186 | the seven group sizes add up to the row count, and together the groups hold exactly the multiset of all counts |
| StatisticalTests.IsSignificant | statistical_tests.py:208 | a significant console verdict means neither test is labelled "not significant" |
| StatisticalTests.VerdictNeedsBothTests | statistical_tests.py:208 | the console verdict holds iff neither the t-test nor the Mann-Whitney test is "not significant"; one test alone is not enough |
| StatisticalTests.PerformStatisticalTests | statistical_tests.py:62-232 | the report's counts and means are those of the weekday and weekend groups of `rows`, and the sizes add up to the rows; the statistics and p-values are passed through; each label is `SignificanceOf` its p-value; d is `CohensD` of the groups and its band `InterpretCohensD(d)`, positive iff weekdays are busier; the CI is `ConfidenceInterval` of the difference and contains it; the ANOVA groups are `AnovaGroups(rows)`; the verdict holds iff both p-values are below 0.05 |
| StatisticalTests.SummaryConclusion | statistical_tests.py:319 | the CONCLUSION line is one of the two phrases, and says significant exactly when the t-test p < 0.05 |
| StatisticalTests.SummaryUsesTTestOnly | statistical_tests.py:319 | the summary says significant iff the t-test p < 0.05; it agrees with a significant console verdict and differs from the console exactly when only the t-test is below 0.05 |

## Left out

- HTTP requests, JSON parsing and exception handling become the `locate` and `fetch` oracles. `_get_block_by_timestamp` and `_get_block_tx_count` are not modelled further.
- The timestamp conversion of a date (`replace(hour=…)`, `timestamp()`) is folded into `locate`. The unused `params` dictionary of `get_daily_transaction_count` is not modelled.
- `time.sleep` rate limiting is wall-clock pacing with no functional effect.
- The progress and result `print`s are not modelled. `analyze_weekend_effect` only prints the two group means, their difference (weekend minus weekday, the opposite sign to the difference in `perform_statistical_tests`) and the percentage difference, or "No data to analyze" on an empty frame, and is left out. So are the median, min, max, standard deviation and percentage difference printed by `perform_statistical_tests`.
- scipy's `shapiro`, `ttest_ind`, `mannwhitneyu` and `f_oneway` are foreign numerics. Their statistics and p-values are inputs.
- `np.sqrt`, `np.var` and `np.std` are not modelled. `pooled_std` and `se_diff` are inputs, constrained positive and non-negative.
- PooledVariance: requires `n1 + n2 != 2`. With exactly two observations the source divides by zero, and numpy yields NaN or infinity. The variances are real inputs, so the model cannot express the NaN that `np.var(..., ddof=1)` gives for a one-element group (statistical_tests.py:38): in the source that NaN makes `pooled_std` and `cohens_d` NaN, and its betweenness claim does not hold there.
- Extrapolate: computes `total_tx / valid_samples * total_blocks` in exact rationals, while the source multiplies IEEE doubles before `int()`. On ordinary inputs the model can exceed the source's result by one: for `total_tx = 13`, `valid_samples = 3`, `total_blocks = 27` the doubles give 116.99999999999999, which `int()` truncates to 116, while the model gives 117. The other floating-point computations (means, Cohen's d, the interval) are likewise exact reals.
- pandas date parsing, `dt.dayofweek` and `dt.day_name()` are not modelled. The day index comes from the `calendar` parameter, and `day_name` is derived from it by the `day_order` list. The `month` column is not modelled.
- AnalyzeDayOfWeekEffect: the `std` column of `day_stats` is not modelled; only the mean and the count are. On an empty frame the source raises `KeyError`, because the constructor adds no calendar columns to an empty frame (eth_trading_patterns.py:157) and `groupby('day_name')` then fails; the model returns an empty table instead. `main` only builds the analyzer from non-empty data (eth_trading_patterns.py:295).
- PerformStatisticalTests: requires both groups to be non-empty. For an empty group the source raises `ValueError` at `np.min` (statistical_tests.py:80 for weekdays, 87 for weekends) before any test or verdict; the requires excludes that crashing input, and the crash is not modelled. With a one-element group the source instead gets a NaN sample variance (statistical_tests.py:38), so `cohens_d` is NaN and `interpret_cohens_d` labels it "large", since every comparison at statistical_tests.py:52-56 is false for NaN; the model takes the numeric results as reals and cannot express that NaN.
- CSV reading and writing, environment variables, `input()` and the writing of the summary file are not modelled. The summary's CONCLUSION line is modelled as a string.
- All plotting (`plot_weekend_comparison`, `plot_time_series`, `create_statistical_visualizations`) and the plotting style setup are not modelled.
- `test_api.py` and `test_api_debug.py` are network diagnostics and are not part of this model.
