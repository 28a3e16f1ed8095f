# Ticker archive, indicators, candlestick signals and volume normalization

This project models in Dafny the core of a small market-data toolkit. The toolkit keeps one daily price
archive per ticker (date, open, high, low, close, volume). It extends each archive with the bars downloaded
since the last saved date. It derives technical indicators from the close, detects candlestick patterns
gated by a volume spike, and turns raw volume into a calendar-adjusted, clipped z-score.

Modules, one per file:

- `Wrappers` (`wrappers.dfy`): `Option`, which stands for a missing (NaN) cell.
- `Calendar` (`calendar.dfy`): proleptic Gregorian dates. It has the day number since 1970-01-01, the
  day of the week (Monday = 0), the next calendar day, quarter ends and the options-expiration (OPEX)
  heuristic.
- `Table` (`table.dfy`): the table vocabulary the three source files share.
  - A `Bar`, and a `Row` holding a bar plus a map of derived columns. The column names form a datatype:
    `Ema(20)` is the column `ema_20`.
  - Sums and means.
  - The trailing rolling mean and standard deviation with `min_periods`.
  - The in-place insertion sort of an array of rows by date, which stands in for `sort_values("Date")`.
- `Indicators` (`indicators.dfy`, from `tickers/indicators.py`): SMA, EMA (`adjust=False`), RSI and MACD,
  each adding columns to a copy of the table, plus `add_key_indicators`.
- `Signals` (`signals.dfy`, from `tickers/signals.py`): the volume-spike flag and the five candlestick detectors.
- `Volume` (`volume.dfy`, `normalize_volume`):
  - a rolling z-score of volume;
  - a weekday mean;
  - a calendar scale of 0.8 for OPEX days, 1.1 for days next to a holiday and 0.9 for quarter ends;
  - clipping to [-5, 5].
- `Archive` (`archive.dfy`, `fetch_new_data` and `update_ticker_data`): the incremental update. It
  covers the up-to-date and empty-download exits, the concatenation, de-duplication by date (the first
  row wins, so archived rows win over fetched ones) and the final sort. The cold start fetches from
  1900-01-01.

Arithmetic is on exact `real`s. The `1e-9` the source adds to its denominators is the constant
`Table.Eps`. A division whose denominator is exactly zero is modelled as IEEE arithmetic resolves it in
a comparison: the comparison is false (`Signals.RatioBelow`).

Two algorithms are modelled imperatively because the source computes them that way:

- `Volume.ComputeScale` keeps an array initialised to ones and applies three masked multiplications.
- `Archive.DropDuplicateDates` makes one pass with a set of dates already seen.

Sorting is an in-place insertion sort on an array (`Table.SortByDate`). pandas' default sort is not
stable, so `Volume.NormalizeVolume` is specified against "some sorting of the input". In the merge the
dates are unique. `Archive.MergedTable` proves that every sorting of the merge is strictly ascending, and
`Archive.MergeIsDetermined` proves that any two sortings of it are equal, so the result is fully determined.

`normalize_volume` drops `weekday`, `volume_zscore`, `is_opex`, `is_holiday_adjacent` and `is_eoq`
(`tickers/data_processing.py:53`). It keeps `volume_weekday_ratio`, which holds the weekday mean and not
the ratio (`tickers/data_processing.py:28`); the ratio itself is only an intermediate value. The model
follows this (`Volume.OutputColumns`, `Volume.NormalizeColumns`).

## Model

| member | source | states |
|---|---|---|
| Calendar.DayOfWeek | tickers/data_processing.py:19 | `dt.dayofweek`: the weekday of a date, Monday = 0 up to Sunday = 6, counted from 1970-01-01, a Thursday |
| Calendar.IsQuarterEnd | tickers/data_processing.py:40 | `dt.is_quarter_end`: the date is the last day of March, June, September or December |
| Calendar.IsOpex | tickers/data_processing.py:32 | the OPEX flag: the date is a Friday whose day of the month is 15 to 21 |
| Calendar.DaysInMonth | tickers/data_processing.py:40 | month lengths are 28..31; February has 29 days exactly in leap years |
| Calendar.ChronologicalIsLexicographic | tickers/data_processing.py:18 | ordering dates by day number is ordering them by (year, month, day) |
| Calendar.DayNumberInjective | tickers/data_processing.py:18 | two dates with the same day number are the same date, so the sort key identifies a date |
| Calendar.NextDay | tickers/data_processing.py:129 | `last_date + 1 day` is the date whose day number is one more |
| Calendar.NextDayIsSuccessor | tickers/data_processing.py:129 | the next day comes after `d`, no date lies strictly between them, and its weekday is the following one |
| Calendar.QuarterEndDates | tickers/data_processing.py:40 | `is_quarter_end` holds exactly on 31 Mar, 30 Jun, 30 Sep and 31 Dec |
| Calendar.OpexIsThirdFriday | tickers/data_processing.py:32 | a Friday on day 15..21 is the third Friday of its month |
| Calendar.January19th2024IsOpex | tickers/data_processing.py:32 | 2024-01-19 is flagged as OPEX and 2024-01-12 is not |
| Table.RollingMean | tickers/indicators.py:6 | `rolling(window, min_periods).mean()` at row `i`: the mean of the present values among the last `window` rows, missing when none or fewer than `min_periods` are present |
| Table.RollingStd | tickers/data_processing.py:23 | `rolling(window, min_periods).std()` at row `i`: the sample deviation of the present values among the last `window` rows, missing when fewer than `min_periods` or fewer than 2 are present |
| Table.MeanOfConstant | tickers/signals.py:6 | the mean of a window of equal values is that value |
| Table.RollingMeanOfLift | tickers/indicators.py:6 | a rolling mean over a column with no gaps is defined exactly once the window holds `min_periods` rows, and is then the mean of the trailing window |
| Table.RollingStdOfLift | tickers/signals.py:7 | a rolling std over a column with no gaps is defined exactly when the window holds at least 2 and at least `min_periods` rows, and is then the std of the trailing window |
| Table.RollingNoLookahead | tickers/data_processing.py:22-23 | rolling mean and std at row `i` depend only on rows `0..i` |
| Table.InsertAt | tickers/data_processing.py:145 | one insertion step leaves the prefix up to `i` ordered by key, the elements after `i` untouched, and the array a permutation of its old contents |
| Table.SortBy | tickers/data_processing.py:145 | the in-place sort leaves the array ordered by key and a permutation of its old contents |
| Table.SortByDate | tickers/data_processing.py:18 | the rows end ordered by date and are a permutation of the input rows |
| Indicators.SmaOf | tickers/indicators.py:6 | the `span`-row rolling mean of the closes with `min_periods = span`, one value per row |
| Indicators.EmaOf | tickers/indicators.py:12 | `ewm(span, adjust=False).mean()`: starts at the first close, then `alpha*x[i] + (1-alpha)*ema[i-1]`, one value per row |
| Indicators.Diff | tickers/indicators.py:18 | `diff()`: missing at row 0, else the close minus the previous close |
| Indicators.Gains | tickers/indicators.py:19 | `delta.clip(lower=0)`: the positive part of each delta, missing where the delta is |
| Indicators.Losses | tickers/indicators.py:20 | `-delta.clip(upper=0)`: the negated negative part of each delta, missing where the delta is |
| Indicators.RsiAt | tickers/indicators.py:21-24 | RSI at row `i`: the `window`-row rolling means of gains and losses, `rs = gain/(loss+1e-9)`, then `100 - 100/(1+rs)`; missing while either mean is |
| Indicators.MacdLineOf | tickers/indicators.py:32-34 | the MACD line: the short-span EMA minus the long-span EMA of the closes, one value per row |
| Indicators.MacdSignalOf | tickers/indicators.py:35 | the MACD signal: the EMA of the MACD line with the signal span, one value per row |
| Indicators.AddEmas | tickers/indicators.py:43-44 | the EMA loop: one `calculate_ema` per span, in order, keeping row count and bars |
| Indicators.AddSmas | tickers/indicators.py:45-46 | the SMA loop: one `calculate_sma` per span, in order, keeping row count and bars |
| Indicators.KeyStages | tickers/indicators.py:40-49 | the four stages of `add_key_indicators` for given spans: EMA loop, SMA loop, RSI(14), MACD(12, 26, 9); keeps row count and bars |
| Indicators.AddKeyIndicators | tickers/indicators.py:40-49 | `add_key_indicators`: the four stages with the spans 20, 50, 100 and 200; keeps row count and bars |
| Indicators.SmaValues | tickers/indicators.py:6 | `sma_<span>` at row `i` is missing before row `span-1` and is otherwise the mean of the last `span` closes |
| Indicators.Alpha | tickers/indicators.py:12 | the smoothing factor `2/(span+1)` is positive, and at most 1 for every span of at least 1 |
| Indicators.EmaFirst | tickers/indicators.py:12 | with `adjust=False` the EMA starts at the first close |
| Indicators.EmaLast | tickers/indicators.py:12 | appending a close appends one value, `alpha*x + (1-alpha)*previous`, and leaves the earlier values as they were |
| Indicators.EmaRecurrence | tickers/indicators.py:12 | the EMA starts at the first close and then follows `alpha*x[i] + (1-alpha)*ema[i-1]` |
| Indicators.EmaPrefix | tickers/indicators.py:12 | the EMA of a prefix is the prefix of the EMA |
| Indicators.EmaExample | tickers/indicators.py:12 | closes 10, 11, 12 with span 2 give 10, 32/3, 104/9 |
| Indicators.EmaWithinRange | tickers/indicators.py:12 | the EMA never leaves the range of the closes |
| Indicators.RsiFormula | tickers/indicators.py:23-24 | `100 - 100/(1+rs)` lies in [0, 100), and is 0 when the average gain is 0 |
| Indicators.RsiOf | tickers/indicators.py:16-25 | `rsi_<window>` is missing exactly on the first `window` rows (the first delta is missing) and lies in [0, 100) elsewhere |
| Indicators.RsiOfFlatWindow | tickers/indicators.py:18-24 | closes that do not move over the window give RSI 0, because the loss guard is `1e-9` |
| Indicators.MacdIdentities | tickers/indicators.py:32-35 | line and signal are 0 at row 0; the signal follows the EMA recurrence over the line |
| Indicators.SmaNoLookahead | tickers/indicators.py:6 | the SMA at row `i` depends only on closes `0..i` |
| Indicators.RsiNoLookahead | tickers/indicators.py:18-24 | the RSI at row `i` depends only on closes `0..i` |
| Indicators.MacdNoLookahead | tickers/indicators.py:32-35 | MACD line and signal at row `i` depend only on closes `0..i` |
| Indicators.NoLookahead | tickers/indicators.py:4-37 | every indicator at row `i` depends only on closes `0..i` |
| Indicators.CalculateSma | tickers/indicators.py:4-7 | a copy with `sma_<span>` added: same rows and bars, other columns unchanged |
| Indicators.CalculateEma | tickers/indicators.py:10-13 | a copy with `ema_<span>` added and defined on every row, other columns unchanged |
| Indicators.CalculateRsi | tickers/indicators.py:16-25 | a copy with `rsi_<window>` added, other columns unchanged |
| Indicators.CalculateMacd | tickers/indicators.py:28-37 | a copy with line, signal and histogram added; the histogram is line minus signal; other columns unchanged |
| Indicators.AddEmasColumns | tickers/indicators.py:43-44 | the EMA loop adds one column per span holding that span's EMA and keeps every other column |
| Indicators.AddSmasColumns | tickers/indicators.py:45-46 | the SMA loop adds one column per span holding that span's SMA and keeps every other column |
| Indicators.AddEmasKeys | tickers/indicators.py:43-44 | after the EMA loop a row has its old columns plus one `ema_<span>` per span |
| Indicators.AddEmasKeep | tickers/indicators.py:43-44 | the EMA loop leaves every column it does not write unchanged |
| Indicators.AddEmasValues | tickers/indicators.py:43-44 | after the EMA loop each `ema_<span>` holds the EMA of the original closes, even when a span repeats |
| Indicators.AddSmasKeys | tickers/indicators.py:45-46 | after the SMA loop a row has its old columns plus one `sma_<span>` per span |
| Indicators.AddSmasKeep | tickers/indicators.py:45-46 | the SMA loop leaves every column it does not write unchanged |
| Indicators.AddSmasValues | tickers/indicators.py:45-46 | after the SMA loop each `sma_<span>` holds the SMA of the original closes, even when a span repeats |
| Indicators.LateStagesKeys | tickers/indicators.py:47-48 | the RSI and MACD stages add exactly `rsi_14` and the three MACD columns |
| Indicators.LateStagesKeep | tickers/indicators.py:47-48 | the RSI and MACD stages keep every column they do not name |
| Indicators.LateStagesValues | tickers/indicators.py:47-48 | the RSI and MACD stages fill their columns from the closes they are given |
| Indicators.AverageStagesKeepCloses | tickers/indicators.py:43-46 | the moving-average loops leave the closes unchanged, so RSI and MACD see the input closes |
| Indicators.KeyStagesRow | tickers/indicators.py:40-49 | for any positive spans, all stages add exactly the EMA, SMA, RSI and MACD columns and keep every other column |
| Indicators.KeyColumnsListed | tickers/indicators.py:43-48 | the key columns are ema and sma of 20/50/100/200, rsi_14 and the three MACD columns |
| Indicators.KeyIndicatorRow | tickers/indicators.py:40-49 | row `i` of `add_key_indicators` has its old columns plus the twelve key columns |
| Indicators.KeyIndicatorColumns | tickers/indicators.py:40-49 | `add_key_indicators` adds exactly the twelve key columns and keeps all others |
| Indicators.KeyEmaValues | tickers/indicators.py:43-44 | each `ema_<span>` of the result is the EMA of the input closes |
| Indicators.KeySmaValues | tickers/indicators.py:45-46 | each `sma_<span>` of the result is the SMA of the input closes |
| Indicators.KeyRsiValue | tickers/indicators.py:47 | `rsi_14` of the result is the 14-row RSI of the input closes |
| Indicators.KeyMacdValues | tickers/indicators.py:48 | the MACD columns of the result are MACD(12, 26, 9) of the input closes |
| Table.ZScore | tickers/signals.py:7-8 | the guarded z-score is positive exactly when the value is above the mean, and 0 at the mean |
| Signals.VolumeZ | tickers/signals.py:5-8 | the volume z-score at row `i`: `(vol - mean)/(std + 1e-9)` over the trailing `window` volumes, missing until the window is full |
| Signals.HighVolumeAt | tickers/signals.py:9 | the spike flag at row `i`: the z-score is present and exceeds the threshold |
| Signals.Spike | tickers/signals.py:30 | the volume gate every detector applies: `is_high_volume` with window 100 and threshold 1.5 |
| Signals.IsHighVolume | tickers/signals.py:4-9 | one flag per bar; false before the window is full and always false for a window under 2 |
| Signals.HighVolumeExactly | tickers/signals.py:4-9 | once the window is full, a bar is flagged iff `(volume - mean)/(std + 1e-9)` exceeds the threshold |
| Signals.FlatVolumeIsNotHigh | tickers/signals.py:6-9 | volume that is constant over the window is never a spike |
| Signals.Body | tickers/signals.py:15 | the body is non-negative and is the close-open difference up to sign |
| Signals.HammerShape | tickers/signals.py:15-29 | the hammer tests on one bar: body/range below the body threshold, lower tail/body above the tail threshold, lower tail above upper tail, upper tail/body below 0.5 |
| Signals.DetectHammer | tickers/signals.py:12-30 | one flag per bar; a flagged bar is a volume spike |
| Signals.HammerWithoutDivision | tickers/signals.py:20-29 | on any bar with high >= low, the hammer is the four ratio tests rewritten as products |
| Signals.ShootingStarShape | tickers/signals.py:69-81 | the shooting-star tests on one bar: body/range below the body threshold, upper tail/body above the tail threshold, upper tail above lower tail |
| Signals.DetectShootingStar | tickers/signals.py:66-82 | one flag per bar; a flagged bar is a volume spike |
| Signals.ShootingStarWithoutDivision | tickers/signals.py:74-81 | on any bar with high >= low, the shooting star is the three ratio tests rewritten as products |
| Signals.ZeroRangeNeverPasses | tickers/signals.py:16 | a bar whose range plus `1e-9` is exactly 0 passes no body-ratio test: not the hammer's, not the shooting star's, and not the morning star's test on its middle bar |
| Signals.BullishEngulfingPair | tickers/signals.py:34-39 | the previous bar is bearish, the current bar bullish, opening below the previous close and closing above the previous open |
| Signals.DetectBullishEngulfing | tickers/signals.py:33-40 | one flag per bar; false at row 0, which has no previous bar; a flagged bar is a volume spike |
| Signals.BullishEngulfingContainsPrevious | tickers/signals.py:36-39 | a flagged bar opens below the previous close and closes above the previous open, so its body is larger |
| Signals.BearishEngulfingPair | tickers/signals.py:44-49 | the previous bar is bullish, the current bar bearish, opening above the previous close and closing below the previous open |
| Signals.DetectBearishEngulfing | tickers/signals.py:43-50 | one flag per bar; false at row 0; a flagged bar is a volume spike |
| Signals.BearishEngulfingContainsPrevious | tickers/signals.py:46-49 | a flagged bar opens above the previous close and closes below the previous open, so its body is larger |
| Signals.MorningStarTriple | tickers/signals.py:54-61 | the first bar is bearish, the second has body/range below 0.3, the third is bullish and closes above the midpoint of the first bar's open and close |
| Signals.DetectMorningStar | tickers/signals.py:53-63 | one flag per bar; false at rows 0 and 1; a flagged bar is a volume spike |
| Signals.MorningStarSmallMiddle | tickers/signals.py:59 | when the middle bar's high is not below its low, its body is under 0.3 of its range plus `1e-9` |
| Signals.MorningStarRecovers | tickers/signals.py:58-61 | the third bar closes above the first bar's close |
| Signals.EngulfingExclusive | tickers/signals.py:36-37 | bullish and bearish engulfing never fire on the same row |
| Signals.HammerShootingStarExclusive | tickers/signals.py:27 | hammer and shooting star never fire on the same row, whatever their thresholds |
| Signals.SpikeNoLookahead | tickers/signals.py:4-9 | the volume-spike flag at row `i` depends only on bars `0..i` |
| Signals.DetectorsNoLookahead | tickers/signals.py:4-82 | every flag at row `i` depends only on bars `0..i` |
| Volume.ScaleFactor | tickers/data_processing.py:43-46 | the scale of one row: 1.0, times 0.8 if OPEX, times 1.1 if holiday-adjacent, times 0.9 if quarter end |
| Volume.DateScale | tickers/data_processing.py:32-46 | the scale of a date from its OPEX flag, its membership in the holiday-adjacent dates and its quarter-end flag |
| Volume.ScaleFactorValues | tickers/data_processing.py:43-46 | the scale takes the eight products of 0.8, 1.1 and 0.9, and 1.0 when no flag is set |
| Volume.ScaleFlagsIndependent | tickers/data_processing.py:43-46 | each flag multiplies by its own factor whatever the others are; the scale lies in [0.72, 1.1] |
| Volume.ComputeScale | tickers/data_processing.py:43-46 | the array of ones after the three masked multiplications holds each row's scale factor |
| Volume.WeekdayMeanAt | tickers/data_processing.py:27-28 | the weekday mean at row `i`: the mean volume over all rows sharing row `i`'s weekday |
| Volume.WeekdayMeanNonnegative | tickers/data_processing.py:27-28 | with non-negative volumes the weekday mean is non-negative |
| Volume.WeekdayMeanOfConstant | tickers/data_processing.py:27-28 | if every row has the same volume, every weekday mean is that volume |
| Volume.WeekdayMeanReordered | tickers/data_processing.py:27-28 | the weekday mean does not depend on the order of the rows |
| Volume.ZScoreAt | tickers/data_processing.py:22-24 | `volume_zscore` at row `i`: `(volume - mean)/(std + 1e-9)` over `long_window` rows with `min_periods = long_window // 2` |
| Volume.ZScoreDefinedness | tickers/data_processing.py:22-24 | the z-score is defined exactly from row `long_window//2 - 1` on, and never below row 1 |
| Volume.Clip | tickers/data_processing.py:51 | the clipped value lies in [-5, 5], equals the input inside that range and saturates outside it |
| Volume.WeekdayRatio | tickers/data_processing.py:29 | volume divided by weekday mean plus `1e-9` is non-negative |
| Volume.NormalizedAt | tickers/data_processing.py:49-51 | `normalized_volume` at row `i`: the z-score divided by the weekday ratio plus `1e-9`, times the scale, clipped to [-5, 5]; missing where the z-score is |
| Volume.NormalizedBounds | tickers/data_processing.py:49-51 | the feature is present exactly where the z-score is, lies in [-5, 5], and is the clipped `z/(ratio+1e-9)*scale` |
| Volume.OutputColumns | tickers/data_processing.py:28-53 | the columns of output row `i`: the input columns minus the five dropped ones, plus `volume_weekday_ratio` holding the weekday mean and `normalized_volume` |
| Volume.NormalizeSorted | tickers/data_processing.py:16-53 | one output row per input row, with the same bar |
| Volume.NormalizeColumns | tickers/data_processing.py:28-53 | output columns: the input columns without the five dropped ones, plus `volume_weekday_ratio` (the weekday mean) and `normalized_volume`, with their values |
| Volume.NormalizedInRange | tickers/data_processing.py:51 | `normalized_volume` lies in [-5, 5] wherever it is present |
| Volume.NormalizeVolume | tickers/data_processing.py:15-53 | the result is the normalization of some sorting of the input rows, with one row per input row |
| Archive.FetchNewData | tickers/data_processing.py:111-120 | the fetched table has one row per downloaded bar, in download order, and is empty when the download is |
| Archive.FetchedRowKeys | tickers/data_processing.py:119 | each fetched row carries exactly the twelve key columns |
| Archive.FetchedRowRsi | tickers/data_processing.py:119 | the RSI of a fetched row is computed from the fetched closes alone |
| Archive.FirstByDate | tickers/data_processing.py:139 | `drop_duplicates(subset="Date")`: the first row of every date, in their original order |
| Archive.FirstByDateInOrder | tickers/data_processing.py:139 | de-duplication only deletes rows: the kept rows are a subsequence of the input, in their original order |
| Archive.FirstWith | tickers/data_processing.py:139 | the first row with a date exists iff that date occurs, and it has that date |
| Archive.FirstByDateDates | tickers/data_processing.py:139 | de-duplication leaves unique dates and loses no date |
| Archive.FirstByDateKeepsFirst | tickers/data_processing.py:139 | every kept row is the first row of its date |
| Archive.FirstWithConcat | tickers/data_processing.py:138-139 | after the concatenation an archived row wins over a fetched row with the same date |
| Archive.FirstByDateOfUnique | tickers/data_processing.py:139 | a table with unique dates is unchanged by de-duplication |
| Archive.FirstByDateIgnoresSeenDates | tickers/data_processing.py:138-139 | appending rows whose dates are already present changes nothing after de-duplication |
| Archive.DropDuplicateDates | tickers/data_processing.py:139 | the one-pass loop keeps exactly the first row of each date |
| Archive.SortRows | tickers/data_processing.py:145 | the result is sorted by date and a permutation of the input |
| Archive.ReorderingKeepsDates | tickers/data_processing.py:145 | sorting keeps the set of dates |
| Archive.ReorderedProvenance | tickers/data_processing.py:138-145 | after sorting, each row still comes from the archive when its date is archived and from the download otherwise |
| Archive.ReorderingKeepsUniqueDates | tickers/data_processing.py:145 | sorting keeps dates unique |
| Archive.SortedUniqueIsAscending | tickers/data_processing.py:145 | sorted rows with unique dates are strictly ascending |
| Archive.SortingOfAscendingIsIdentity | tickers/data_processing.py:145 | sorting an already strictly ascending table returns it unchanged |
| Archive.UpdateTickerData | tickers/data_processing.py:123-147 | all five exits: up to date, empty download, merge, cold start with an empty download, and cold start; each states the returned table and whether the archive is written |
| Archive.MergedTable | tickers/data_processing.py:138-145 | the merged table is strictly ascending with unique dates, holds exactly the archived dates plus the fetched dates, and takes each row from the archive when its date is archived and from the download otherwise |
| Archive.MergeIsDetermined | tickers/data_processing.py:138-145 | any two sortings by date of the de-duplicated merge are equal, so the unstable sort cannot change the result |
| Archive.MergeIsIdempotent | tickers/data_processing.py:138-145 | merging a download that adds no new date into an ascending archive returns the archive unchanged |

## Left out

- Network and files.
  - The Yahoo download is a function from the start date to a list of bars.
  - Reading and writing the CSV archive is modelled by the `existing` argument and the `written` result.
  - `get_csv_path` has no counterpart: the CSV path goes with the file into `existing` and `written`.
  - `get_last_saved_date` and `datetime.today()` are parameters.
  - Date parsing (`pd.to_datetime`, `strftime`) is replaced by an exact `Date` type.
- `Archive.FetchNewData` does not require the downloaded bars to be dated on or after the start date.
  The provider is trusted for that, as the source trusts it.
- The US federal holiday calendar, with its business-day shift, is a supplied set of holiday-adjacent
  dates (`Volume.DateScale`).
- The standard deviation needs a square root. It is a supplied function of the window's values that is
  non-negative, used only with at least two observations as pandas does.
- Floating point: rounding, overflow, infinities and NaN propagation are not modelled. Values are exact
  reals and a missing cell is `None`. A comparison against a division by exactly zero is false.
- `Volume.NormalizeVolume` requires non-negative volumes. The source does not check this. With a
  negative volume the weekday mean plus `1e-9` could be zero, which the model would have to divide by.
- `Volume.NormalizeVolume`: the `short_window` argument is accepted but unused, as in the source.
- `Volume.NormalizeVolume` and `Archive.UpdateTickerData` state the result as some sorting by date of
  the input (ordered, and a permutation). pandas' default sort is not stable, so the order of rows with
  equal dates is left open. After de-duplication no two rows share a date. The merge result is then
  strictly ascending (`Archive.MergedTable`) and fully determined (`Archive.MergeIsDetermined`).
- `Indicators.CalculateEma`, `Indicators.CalculateMacd`, `Indicators.MacdLineOf`, `Indicators.MacdSignalOf`,
  `Indicators.AddEmas` and `Indicators.KeyStages` require every span to be at least 1. pandas
  `ewm(span=s)` raises `ValueError` for `s < 1`, and that error path is not modelled. The toolkit
  only passes the literal spans 9, 12, 20, 26, 50, 100 and 200.
- Column alignment in `pd.concat` is not modelled. When the archive and the download have different
  column sets, pandas pads with NaN; the model keeps each row's own column map.
- Concurrency (`batch_update_tickers_parallel`) is not part of this model.
- `get_sp500_tickers`, `get_yahoo_metadata` and `get_sp500_metadata` (web scraping) are not part of
  this model.
- `tickers/utils.py` (directory management) and `setup.py` are not part of this model.
