# Web-traffic forecasting: the train/serve feature pipeline and the drift rule

This Dafny project models the part of the web-traffic forecasting service
where train and serve must agree. It covers three things:

- how one request's timestamp, lags and festival flag become the model's
  seven-column feature row;
- how the model's input is forced into that schema and how missing lags are
  imputed;
- how the stored history of observations becomes training data for
  retraining and evaluation data for the drift check.

It proves what these steps promise: the column order, the default values,
the imputation policy, the shift-and-drop of the lags, and the drift
thresholds. It also proves that the serving path and the training path
build the same row.

The modules follow the repository's files:

| module | file | what it holds |
|---|---|---|
| `Calendar` | (pandas' `Timestamp`) | A date record that names a real instant. It provides `.hour`, `.month` and `.dayofweek` (0 = Monday … 6 = Sunday), computed with a days-from-civil count. It also gives the instant that timestamps sort by. |
| `Tables` | (pandas' `DataFrame`) | `Table` is a value: column names plus rows of cells. A cell is null, a number or a timestamp. `Frame` is a class whose methods update a table in place (`df[c] = …`), copy it, select columns from it and `dropna` it. |
| `Features` | app/features.py | `_parse_timestamp` and `make_features`. |
| `ModelUtils` | app/model_utils.py | `FEATURE_COLS`, `_ensure_columns` (a method over a `Frame` with a loop), and the imputation loop of `predict_from_df`. |
| `History` | scripts/check_drift.py, scripts/retrain.py | What both scripts do to the stored observations. They drop rows whose timestamp did not parse, count them, sort by time, and assign the six derived columns. The module also proves what `dropna` then keeps. |
| `CheckDrift` | scripts/check_drift.py | `load_recent_data`, `build_features` (a method that writes into the caller's frame), the drift-score loop, the MAE, the 50/120 classification and the report. |
| `Retrain` | scripts/retrain.py | The filter, count and sort of `load_data`. `build_training_features` (a method), the X/y selection, and `train_model` up to the fit. |
| `Parity` | all of the above | Three facts linking the files:
  - the column lists are identical;
  - when the stored rows have no nulls, every row of X is the row `make_features` builds for the same timestamp, lags and festival flag;
  - the serving row reaches the model with its lags imputed. |

Design decisions:

- A timestamp is an already-parsed date record. Text the parser cannot read
  is `None`.
- Numbers are mathematical reals.
- The model's `predict` is a function passed in as a parameter.
- Each derivation is stated as a relation, `History.DerivedFrom`, between the
  table before the six assignments and the table after them.
  `History.DerivedColumnsSpec` proves that the derivation satisfies it. The
  lemmas about `dropna` and the examples hold for any table in that relation.

Two consequences of the source, as the model proves them:

- `load_recent_data` demands `window + 2` valid rows but returns only the last
  `window` of them. `build_features` then shifts within that window, so the
  first two rows of the window lose their lags and are dropped. With the
  default window of 20, exactly 18 rows are scored, and their lags all come
  from inside the window (`CheckDrift.WindowLosesTwoRows`). This count
  assumes the window holds no null in any column. A null elsewhere in a row,
  say a missing `is_festival`, makes `dropna` remove that row too, so fewer
  rows are scored.
- `load_data` and `build_training_features` impose no minimum number of
  rows. `load_data` fails only when the `timestamp` column is missing. The
  fit in `train_model` (scripts/retrain.py:85) is stricter: it rejects an X
  with no rows, so training needs at least one row to survive `dropna`. With
  no nulls in the stored data, that means at least three valid rows
  (`Retrain.TrainingLosesTwoRows`).

## Model

| member | source | states |
|---|---|---|
| Features.ParseTimestamp | app/features.py:10-23 | A missing timestamp fails with "timestamp is required", and only a missing one does. "Invalid timestamp format" is returned exactly for text the parser cannot read and for a plain `datetime` (not a `pd.Timestamp`), which the parser refuses. A `pd.Timestamp`, or readable text, succeeds with exactly that timestamp. |
| Features.PlainDateTimeRejected | app/features.py:15-21 | A plain `datetime` is not passed through: `make_features` fails with "Invalid timestamp format" whatever the other arguments are. |
| Features.CalendarOf | app/features.py:35-39 | The hour is in [0, 23], the day of week in [0, 6] and the month in [1, 12]. Each equals the timestamp's own field or weekday. `is_weekend` is 0 or 1, and it is 1 exactly when the day of week is 5 or 6. |
| Features.LagCell | app/features.py:42-43 | An absent lag gives null, and only an absent lag does. A present lag is passed through unchanged, never defaulted to 0. |
| Features.MakeFeatures | app/features.py:25-52 | Fails exactly when parsing fails, with the same error. Otherwise it returns one row whose columns are exactly `lag_1, lag_2, hour, day_of_week, month, is_weekend, is_festival` in that order. The cells are the two lags, the calendar fields of the parsed timestamp, and the festival flag, which is 0 when none is given. |
| Features.MissingTimestampRejected | app/features.py:12-13 | A missing timestamp is rejected whatever the other arguments are. |
| Features.SundayAfternoonExample | app/features.py:34-51 | For 2025-12-07T15:00:00 with lags 120 and 100 on a festival day, the row is exactly [120, 100, 15, 6, 12, 1, 1]: hour 15, Sunday, December, weekend. |
| Calendar.DayOfWeek | app/features.py:37 | `.dayofweek` is always in [0, 6]. The lemmas below pin it to pandas' numbering. |
| Calendar.NextDayIsOneDayLater | app/features.py:37 | The day count behind `dayofweek` advances by exactly one from any valid date to the next. This covers month ends, leap Februaries and year ends. |
| Calendar.DayOfWeekAdvances | app/features.py:37 | Consecutive calendar days have consecutive weekdays, and Sunday (6) wraps to Monday (0). |
| Calendar.EpochIsThursday | app/features.py:37 | 1970-01-01 is day 0 and a Thursday (3). This anchors the 0 = Monday numbering. |
| Calendar.December7th2025IsSunday | app/features.py:37 | 2025-12-07 has day of week 6. |
| ModelUtils.FeatureColsDistinct | app/model_utils.py:11 | The canonical column list names each column once. |
| ModelUtils.DefaultColumn | app/model_utils.py:25-30 | A filled-in column has one cell per row. It is null for `lag_1` and `lag_2` and 0 for every other column. |
| ModelUtils.AddMissing | app/model_utils.py:23-30 | After the fill loop has visited some columns:<ul><li>the input's columns are kept with their values;</li><li>every visited column is present;</li><li>no other column appears;</li><li>each visited column that was missing holds its default.</li></ul> |
| ModelUtils.EnsuredColumns | app/model_utils.py:18-33 | The result's columns are exactly `FEATURE_COLS`, in canonical order, whatever the input's order. The row count is unchanged. Canonical columns present in the input keep their values. Missing ones hold their defaults. Extra input columns are dropped. |
| ModelUtils.EnsureColumns | app/model_utils.py:18-33 | The loop over a copy leaves the caller's frame unchanged. It returns a new frame equal to `EnsuredColumns` of the input. |
| ModelUtils.EnsuredColumnsIdempotent | app/model_utils.py:32 | A table already in canonical form comes back unchanged. |
| ModelUtils.FillNA | app/model_utils.py:51 | Every null becomes the given value. Every other cell is unchanged. |
| ModelUtils.ImputeColumn | app/model_utils.py:47-51 | The result holds no null. If every cell was null, every cell becomes 0.0. Otherwise each null becomes the mean of the non-null values, and every other cell is unchanged. |
| ModelUtils.ImputeNullAndEighty | app/model_utils.py:49-51 | [null, 80] imputes to [80, 80]. |
| ModelUtils.ImputeSingleNull | app/model_utils.py:47-48 | A one-row batch with a null lag gets 0.0. |
| ModelUtils.ImputationKeepsMean | app/model_utils.py:49-51 | Mean imputation leaves the column's mean where it was. |
| ModelUtils.ImputeColumnWithoutNulls | app/model_utils.py:44 | Imputing a column that has no null changes nothing. |
| ModelUtils.ImputeStep | app/model_utils.py:46-51 | One pass of the loop replaces lag column `c` by its imputed cells. Every other column is unchanged. |
| ModelUtils.ImputedLags | app/model_utils.py:44-51 | Each lag column is imputed on its own. Afterwards no lag is null, and every non-lag column is untouched. |
| ModelUtils.ImputationWithoutNulls | app/model_utils.py:44 | When neither lag has a null, imputation is the identity. |
| ModelUtils.ImputationIdempotent | app/model_utils.py:44-51 | Imputing an imputed table changes nothing. |
| ModelUtils.ImputeAll | app/model_utils.py:46-51 | The passes of the loop over a list of lag columns keep the imputable shape: the same column names and the same row count. |
| ModelUtils.ImputeAllStep | app/model_utils.py:46-51 | Each pass extends the processed prefix of `["lag_1", "lag_2"]` by one `ImputeStep`. |
| ModelUtils.ImputeAllLags | app/model_utils.py:44-51 | When a lag is null, passing over both lag columns in order yields exactly `ImputedLags`. |
| ModelUtils.ImputeLags | app/model_utils.py:44-51 | The loop overwrites the frame's lag columns in place. After `i` passes the frame equals `ImputeAll` of its old value over the first `i` lag columns. At the end it equals `ImputedLags` of its old value. |
| ModelUtils.EnsuredLagsImputable | app/model_utils.py:24-32 | After `_ensure_columns`, both lag columns exist and hold only numbers and nulls. |
| ModelUtils.Prepared | app/model_utils.py:41-51 | What reaches the model has exactly the canonical columns, the caller's row count, and no null lag. |
| ModelUtils.PredictFromFrame | app/model_utils.py:35-54 | The caller's frame is unchanged. The predictions are the model's predictions on the prepared table. |
| Tables.Assign | scripts/check_drift.py:72-77 | `df[c] = cells` makes column `c` equal to the given cells. Every other column keeps its cells. The names are the old ones plus `c`, and the row count is unchanged. |
| Tables.AssignNames | scripts/check_drift.py:72-77 | An existing column is overwritten where it stands. A new one is appended after the last column. |
| Tables.Select | scripts/retrain.py:71 | `df[cols]` has exactly the named columns, in the order given, each with its cells unchanged. |
| Tables.Missing | scripts/retrain.py:71 | The names the `KeyError` lists are exactly the requested columns that the table lacks. |
| Tables.Column | scripts/check_drift.py:97 | `df[c]` has one cell per row, and cell `i` is row `i`'s cell in column `c`. |
| Tables.RowsWithoutNulls | scripts/check_drift.py:78 | Every row kept is an input row with no null. All rows are kept when none has a null. |
| Tables.RowsWithoutNullsCount | scripts/check_drift.py:78 | Each row without a null is kept as often as it occurs in the input. A row with a null is never kept. |
| Tables.RowsWithoutNullsAppend | scripts/check_drift.py:78 | `dropna` keeps the input order: filtering `a + b` gives the rows kept from `a`, then those kept from `b`. |
| Tables.RowsWithoutNullsCons | scripts/check_drift.py:78 | A leading row is kept at the front exactly when it has no null. The rest is filtered the same way. |
| Tables.DropNA | scripts/check_drift.py:78 | `dropna` keeps the columns, and its rows are exactly `RowsWithoutNulls` of the input rows. |
| Tables.NumValues | scripts/check_drift.py:108 | `.mean()` averages the column's numbers, so it never sees more values than the column has cells. |
| Tables.NumValuesCount | app/model_utils.py:50-51 | Each number is averaged as often as it occurs in the column, even when the column also holds nulls. Nulls and timestamps contribute nothing. |
| Tables.NumValuesMembers | scripts/check_drift.py:108 | A value is averaged if and only if it is a number cell of the column. How often it counts is stated by `NumValuesCount`. |
| Tables.AllNumValues | scripts/check_drift.py:103 | A column without nulls yields one value per row, in row order. |
| Tables.SumFromMean | scripts/check_drift.py:108 | `mean` times the count is the sum. |
| Tables.MeanFromSum | app/model_utils.py:51 | A value that times the count gives the sum is the mean. |
| Tables.Tail | scripts/check_drift.py:65 | `tail(n)` returns the last `min(n, len)` rows, or all but the first `-n` rows when `n` is negative. The result is a suffix of the input. |
| Tables.Frame.Copy | app/model_utils.py:23 | `X.copy()` returns a new frame with the same value. |
| Tables.Frame.SetColumn | scripts/retrain.py:62-67 | The frame's new value is its old value with the column assigned. |
| Tables.Frame.SelectColumns | scripts/check_drift.py:96 | A new frame holding the selected columns. The original frame is unchanged. |
| Tables.Frame.DropNulls | scripts/retrain.py:69 | A new frame holding the frame's `dropna`. The original frame is unchanged. |
| History.InvalidCount | scripts/check_drift.py:48 | `num_bad` is at most the row count. It is 0 exactly when every row's timestamp parsed. |
| History.ValidRows | scripts/check_drift.py:57 | `dropna(subset=["timestamp"])` keeps every row with a parsed timestamp as often as it occurred, and no other row. The kept count plus the invalid count is the input count. |
| History.Insert | scripts/check_drift.py:58 | Inserting into a sorted sequence keeps it sorted by time. It adds exactly the one row. |
| History.SortByTime | scripts/check_drift.py:58 | `sort_values("timestamp")` yields rows ascending by instant, and they are a permutation of the input. |
| History.SortedDaysAscend | scripts/check_drift.py:58 | After the sort, a later row is never on an earlier calendar day. |
| History.CleanSorted | scripts/retrain.py:42-56 | Exactly the rows with an unreadable timestamp are dropped, and `num_bad` is their count. The rest come back ascending by timestamp, with the same columns. |
| History.Shift | scripts/check_drift.py:72-73 | `shift(k)` puts row `i - k`'s cell in row `i`. The first `k` cells become null. |
| History.HourCells | scripts/check_drift.py:74 | Each row's hour comes from that row's own timestamp. A missing timestamp gives null. |
| History.DayOfWeekCells | scripts/check_drift.py:75 | Each row's day of week comes from that row's own timestamp. |
| History.MonthCells | scripts/check_drift.py:76 | Each row's month comes from that row's own timestamp. |
| History.WeekendCells | scripts/check_drift.py:77 | 1 exactly where the day of week is at least 5, otherwise 0. |
| History.DerivedColumns | scripts/retrain.py:62-67 | The six assignments keep the row count and every input column. They add exactly `lag_1, lag_2, hour, day_of_week, month, is_weekend`. |
| History.DerivedLags | scripts/retrain.py:62-63 | `lag_1` and `lag_2` are the one- and two-step shifts of `page_views` in time order. |
| History.DerivedCalendar | scripts/retrain.py:64-67 | The calendar columns come from each row's own timestamp, with `is_weekend` computed from `day_of_week`. |
| History.DerivedKeepsOthers | scripts/retrain.py:62-67 | Every column the assignments do not name keeps its cells. |
| History.DerivedColumnsSpec | scripts/check_drift.py:71-77 | The derivation satisfies the relation `DerivedFrom`, which the `dropna` lemmas are stated over. |
| History.FirstTwoHaveNull | scripts/check_drift.py:72-73 | The first row has a null `lag_1`, and the first two rows have a null `lag_2`. |
| History.LaterRowsComplete | scripts/check_drift.py:72-78 | In an input without nulls, every derived row from the third on has no null. |
| History.DropsFirstTwo | scripts/check_drift.py:78 | For n stamped rows without nulls, `dropna` keeps exactly rows 2 onwards: n − 2 rows, or none when n < 2. |
| History.OnlyLaterRowsSurvive | scripts/check_drift.py:78 | Whatever the input, the first two rows never survive `dropna`. |
| History.SurvivorLags | scripts/check_drift.py:72-78 | For n ≥ 2 rows without nulls, n − 2 rows survive. Surviving row `i` has `lag_1` and `lag_2` equal to the `page_views` of input rows `i + 1` and `i`, and its own `page_views` is that of input row `i + 2`. |
| History.SurvivorKeeps | scripts/retrain.py:62-69 | A column the assignments do not name reads, in surviving row `i`, input row `i + 2`. |
| History.CsvDerived | scripts/check_drift.py:72-77 | After the six assignments, no column but `timestamp` holds a timestamp: the new columns hold only numbers and nulls. |
| History.NumericAfterDropNA | scripts/check_drift.py:78 | After `dropna`, every column other than `timestamp` holds a number in every row. |
| History.SortedSuffix | scripts/check_drift.py:65 | The last rows of a sorted table are still sorted. |
| CheckDrift.LoadRecentData | scripts/check_drift.py:27-65 | A missing `timestamp` column is an error. The call fails exactly when fewer than `window + 2` valid rows remain, reporting the count needed and the count found. Otherwise the result is the last `window` valid rows, ascending by timestamp, and `num_bad` is the number of rows dropped. |
| CheckDrift.RecentRows | scripts/check_drift.py:61-65 | With at least `window + 2` sorted rows, the tail has exactly `window` rows and is still sorted. |
| CheckDrift.BuildFeatures | scripts/check_drift.py:71-79 | The caller's frame is left holding the six derived columns. The result is that frame after `dropna`. |
| CheckDrift.DriftScore | scripts/check_drift.py:108 | The score `abs(mean(col) − col[0])` is never negative. |
| CheckDrift.ConstantColumnScoresZero | scripts/check_drift.py:108 | A column that holds the same value in every row scores 0. |
| CheckDrift.ScoreExample | scripts/check_drift.py:108 | The column 10, 20, 30 scores 10. |
| CheckDrift.Scores | scripts/check_drift.py:106-108 | There is exactly one key per feature column. Each value is that column's drift score and is ≥ 0. |
| CheckDrift.DriftScores | scripts/check_drift.py:106-108 | The loop fills `drift_scores` with exactly `Scores`. |
| CheckDrift.AbsErrors | scripts/check_drift.py:103 | The i-th error is the absolute difference between actual `i` and prediction `i`. |
| CheckDrift.SumOfNonNegative | scripts/check_drift.py:103 | A sum of non-negative errors is non-negative, and it is 0 exactly when every error is 0. |
| CheckDrift.MeanAbsoluteError | scripts/check_drift.py:103 | The MAE is ≥ 0, and it is 0 exactly when the predictions equal the actuals. |
| CheckDrift.Classify | scripts/check_drift.py:111-116 | `mae < 50` gives NO_DRIFT, `50 ≤ mae < 120` gives MILD_DRIFT and `mae ≥ 120` gives SEVERE_DRIFT. Each holds in both directions. |
| CheckDrift.ClassifyMonotone | scripts/check_drift.py:111-116 | A larger MAE never gives a milder decision. |
| CheckDrift.ClassifyBoundaries | scripts/check_drift.py:111-116 | 49.9, 50, 119.9 and 120 get the report labels "NO_DRIFT", "MILD_DRIFT", "MILD_DRIFT" and "SEVERE_DRIFT". |
| CheckDrift.WindowFeaturesNumeric | scripts/check_drift.py:95-97 | After `dropna`, every feature column and `page_views` of the derived window holds a number in every row. |
| CheckDrift.Evaluate | scripts/check_drift.py:95-124 | Fails exactly when the model returns a different number of predictions than there are rows. Otherwise the report's MAE is `MeanAbsoluteError` of the `page_views` column, one value per row, against the model's predictions on `df[feature_cols]`. The report also carries the scores `Scores` and the decision `Classify` of that MAE. |
| CheckDrift.DriftOnWindow | scripts/check_drift.py:71-124 | Deriving, dropping nulls and evaluating a loaded window. A window without `page_views` fails naming it. A window without `is_festival` fails naming exactly that column. Otherwise an empty result of `dropna` fails with no rows, and a non-empty one gives `Evaluate` of the derived window after `dropna`. |
| CheckDrift.WindowFeatureNames | scripts/check_drift.py:95-96 | After the derivation, `df[feature_cols]` can miss only `is_festival`, and misses it exactly when the stored data lacks it. |
| CheckDrift.MissingFeatures | scripts/check_drift.py:95-96 | For columns that include the six derived names, the only feature that can be missing is `is_festival`. |
| CheckDrift.Drift | scripts/check_drift.py:84-124 | When `load_recent_data` fails, `detect_drift` fails with the same error. It fails with not-enough-data exactly when loading does. Once loading succeeds, the result is `DriftOnWindow` of the loaded window, with all of that function's failure cases and its success value. On success the loaded window is derivable and the report is `Evaluate` of the derived window after `dropna`. |
| CheckDrift.LoadedWindowShape | scripts/check_drift.py:57-65 | Loading keeps timestamps in the `timestamp` column only. |
| CheckDrift.EvaluateFrame | scripts/check_drift.py:95-124 | Selecting, predicting, measuring, scoring and classifying step by step yields `Evaluate`. |
| CheckDrift.DriftFromWindow | scripts/check_drift.py:86-124 | Building the features in a frame made from the window, then evaluating, yields `DriftOnWindow`. |
| CheckDrift.DetectDrift | scripts/check_drift.py:84-124 | `detect_drift` step by step yields `Drift`. |
| CheckDrift.FeatureColumnsDistinct | scripts/check_drift.py:95 | The feature list names each column once. |
| CheckDrift.WindowLosesTwoRows | scripts/check_drift.py:61-78 | With the default window and no nulls in it, exactly 18 rows are scored. Their lags come from the window itself. |
| CheckDrift.WindowReady | scripts/check_drift.py:57-65 | A loaded default window has 20 stamped rows with the derivation's columns. |
| CheckDrift.WindowLags | scripts/check_drift.py:71-78 | Deriving from 20 rows without nulls leaves 18. Their lags are the window's own `page_views`. |
| Retrain.LoadData | scripts/retrain.py:21-57 | Fails exactly when `timestamp` is missing. Otherwise:<ul><li>exactly the rows with an unreadable timestamp are dropped and counted;</li><li>every valid row is kept, as often as it occurred;</li><li>the result is ascending by timestamp;</li><li>there is no minimum row count.</li></ul> |
| Retrain.TrainingData | scripts/retrain.py:71-72 | Fails exactly when a training column is missing, naming the missing columns. Otherwise X has exactly the seven canonical columns in order, each equal to the table's. `len(X) == len(y)`, and y is `page_views`. |
| Retrain.TrainingColumnsDistinct | scripts/retrain.py:71 | X's column list names each column once. |
| Retrain.XYAligned | scripts/retrain.py:71-72 | Cell `k` of X's row `i`, and entry `i` of y, come from row `i` of the same table. |
| Retrain.BuildTrainingFeatures | scripts/retrain.py:60-74 | The caller's frame is left holding the six derived columns. The result is `TrainingData` of that frame after `dropna`. |
| Retrain.Training | scripts/retrain.py:62-78 | Loading then building features fails with the missing-timestamp error when that column is absent. With a timestamp but no `page_views` it fails with `MissingColumns(["page_views"])`, the `KeyError` of the first shift. With both but no `is_festival`, it fails with a `MissingColumns` error that names exactly `is_festival`, the `KeyError` of the X selection. It succeeds exactly when the stored data has `timestamp`, `page_views` and `is_festival`, however few rows it has. On success the result is `TrainingData` of the loaded table, derived, after `dropna`. |
| Retrain.TrainingSucceeds | scripts/retrain.py:69-72 | After the derivation and `dropna`, `page_views` is present. The X/y selection succeeds exactly when the stored data has `is_festival`. When it fails, the error names exactly `is_festival`. |
| Retrain.SelectionSucceeds | scripts/retrain.py:71 | For columns that include the six derived names and `page_views`, the selection succeeds exactly when `is_festival` is present. When it fails, the only column named is `is_festival`. |
| Retrain.TrainingLosesTwoRows | scripts/retrain.py:62-72 | With no nulls in the loaded data and n valid rows, X has n − 2 rows, or none when n < 2. |
| Retrain.TrainModel | scripts/retrain.py:76-78 | Loading, then building the features in a fresh frame, yields `Training`. |
| Retrain.ExampleInput | scripts/retrain.py:62-69 | The three-observation example is derivable, has no nulls and is stamped. |
| Retrain.ThreeRowSurvivor | scripts/retrain.py:62-69 | Of three rows without nulls, one survives. It carries the first two rows' `page_views` as lags, and the third row's target and festival flag. |
| Retrain.ThreeObservations | scripts/retrain.py:62-72 | For [(t1, 100, 0), (t2, 110, 0), (t3, 90, 1)], the only training row has `lag_1` 110, `lag_2` 100, `is_festival` 1 and target 90. |
| Retrain.SingleTrainingRow | scripts/retrain.py:71-72 | A one-row table gives one training row, made of that row's cells. |
| Parity.ColumnListsAgree | app/model_utils.py:11 | The serving row's columns, `FEATURE_COLS`, the drift check's `feature_cols` and X's columns are the same list in the same order. |
| Parity.CalendarCellsAgree | scripts/retrain.py:64-67 | The hour, day of week, month and weekend cells derived from a stored timestamp are the ones `make_features` computes for that timestamp. |
| Parity.CalendarParity | scripts/retrain.py:64-67 | In every row of the derived history, the four calendar columns equal those of the serving row for that row's timestamp. |
| Parity.SurvivorRowParity | scripts/retrain.py:62-69 | Surviving row `i` holds, column by column, the cells `make_features` builds from:<ul><li>stored row `i + 2`'s timestamp;</li><li>the `page_views` of stored rows `i + 1` and `i`, as the lags;</li><li>row `i + 2`'s festival flag.</li></ul> |
| Parity.TrainingRowParity | scripts/retrain.py:60-74 | Train/serve parity: row `i` of X is exactly the row `make_features` returns for stored row `i + 2`'s timestamp, with stored rows `i + 1` and `i` supplying the lags and row `i + 2` the festival flag. |
| Parity.ServingRowPrepared | app/model_utils.py:41-51 | The serving row reaches the model in canonical order. A given lag passes through, an absent lag becomes 0.0, and the other five cells are those `make_features` built. |
| Parity.PreparedOneRow | app/model_utils.py:44-51 | Preparing a canonical one-row batch: each present lag stays, each absent lag becomes 0.0, and the non-lag columns are unchanged. |

## Left out

- File I/O is not modelled:
  - the existence checks and their `FileNotFoundError`s;
  - `read_csv`;
  - the bad-row side files and the warnings printed;
  - writing the JSON report and `os.makedirs`.
- The CSV's contents are the `raw` table parameter.
- Model loading is not modelled: `_load_model`, `joblib.load`/`dump`, and the `ModelNotFound` error.
- `model.predict` is a function parameter.
- `RandomForestRegressor` and `fit` are not modelled. `Retrain.Training` stops at the X and y that are fitted. The fit rejects an X with no rows. Training therefore needs at least one row to survive `dropna`, and the model does not state that requirement.
- The `timestamp` field of the drift report is not modelled. It comes from `datetime.now()`.
- Timestamp text parsing is not modelled: `str.strip`, `dateutil.parser.parse` and `pd.to_datetime(errors="coerce")` are foreign code. The model takes their outcome: a parsed date record, or `None` for text that does not parse.
- Timezones, sub-second precision and pandas' `Timestamp` bounds are not modelled.
- Floating point is replaced by mathematical reals in means, MAE and casts. NaN is the null cell.
- Column dtypes are not modelled; every number is a real.
- History.SortByTime: pandas' default sort is not stable, so the contract fixes only "ascending and a permutation". The order among equal timestamps is not specified.
- Features.ParseTimestamp: `AlreadyParsed` stands only for a `pd.Timestamp`. A plain `datetime` is handed to `dateutil`, which raises, so it fails as an invalid format (`PlainDateTime`). Which texts the parser accepts is not modelled.
- Features.MakeFeatures: `is_festival` is taken as an integer. `int()` of a non-integral value or of a string is not modelled.
- CheckDrift.BuildFeatures: it requires `page_views` and `timestamp` columns. The `KeyError` when one is missing is modelled instead in the surrounding functions: `CheckDrift.DriftOnWindow` and `Retrain.Training` return `MissingColumns`.
- Retrain.BuildTrainingFeatures: the same requirement applies.
- The thresholds 50 and 120 and the window of 20 are fixed constants, as in the code. They are not configuration parameters.
- app/main.py (HTTP routes, CSV append) is not part of this model.
- scripts/train.py (a legacy script with a different schema) is not part of this model.
