# Predictive-maintenance pipeline: the table logic, verified

This project models the deterministic table logic of a predictive-maintenance pipeline built on the AI4I 2020 machine dataset. It covers five stages:

- **`clean_data`** trims the column labels and fixes the set of numeric columns. It fills missing numeric cells with the column median and drops exact duplicate rows. It then one-hot encodes `Type` with the first level dropped and removes rows outside Tukey's fences `[Q1 − 1.5·IQR, Q3 + 1.5·IQR]`.
- **`build_features`** sorts by `UDI` and adds three 5-row trailing means and three whole-column z-scores of torque, speed and process temperature. It then drops every row with a missing cell and projects onto the 12 columns of the analysis base table (ABT).
- **`run_rq5_analysis`** sums the failure label. It assumes 30% of failures are avoided, truncated to an integer, at 1000 euros a failure, and reports a six-row metrics table and a two-bar cost chart.
- **`train_model`** (post-processing only) separates the features from the label. It reports the AUC only when the fitted forest has seen more than one class ("Not defined" otherwise), writes the three-row metrics table, and selects the ten largest feature importances, each with its feature.
- **`run_anomaly_detection`** (post-processing only) writes the isolation forest's ±1 verdicts and their `Normal`/`Anomaly` labels into the frame, and tallies the labels with `value_counts`.

The modules are:

- `Cells`: the cell datatype; Python `str.strip`; the sort order of keys.
- `Stats`: sums, mean, population variance, sorting, pandas' linear quantile and the median.
- `Frames`: tables, column lookup and assignment, `drop`, projection, boolean row selection, `drop_duplicates`, and the `Frame` class that holds the variable `df`.
- One module per stage: `Cleaning`, `Features`, `Economics`, `Training` (with `Ranking`, the descending sort and `head`) and `Anomalies`.

The stages that reassign `df` step by step (`clean_data`, `build_features`, and the two column assignments of `run_anomaly_detection`) are methods on a `Frame` object. Each method is proved equal to a pure function of the input table, and the properties are lemmas about that function. The loops (trailing mean, z-score, first-seen duplicate scan, the six derived columns) are methods proved against their specification functions.

Things the model takes as inputs:

- The machine-learning results: the forest's number of classes, its accuracy, F1, ROC-AUC and importances, and the isolation forest's verdicts.
- The standard deviations for the z-scores. `IsStd` states that a deviation is the population deviation of its column.
- The table `read_csv` produced, as a `Table` value. The `Typed` predicate gives `read_csv`'s column typing.

## Model

| member | source | states |
|---|---|---|
| Cells.Strip | src/data_cleaning/clean_data.py:12 | `str.strip()`: the result has no whitespace at either end and is no longer than the input |
| Cells.StripStartShape | src/data_cleaning/clean_data.py:12 | the leading strip leaves a suffix of the input that follows only whitespace and does not itself start with whitespace |
| Cells.StripEndShape | src/data_cleaning/clean_data.py:12 | the trailing strip leaves a prefix of the input that comes before only whitespace and does not itself end with whitespace |
| Cells.StripCutsWhitespace | src/data_cleaning/clean_data.py:12 | the input is a whitespace prefix, then the stripped label, then a whitespace suffix |
| Cells.StripUnique | src/data_cleaning/clean_data.py:12 | any trimmed string surrounded by whitespace strips to exactly itself, so `Strip` is determined by its meaning |
| Cells.StripIdempotent | src/data_cleaning/clean_data.py:12 | stripping twice is stripping once |
| Cells.StrLessTotal | src/feature_engineering/build_features.py:11 | code-point string order is total (with irreflexive, transitive and asymmetric lemmas beside it) |
| Cells.KeyLeTotal | src/feature_engineering/build_features.py:11 | the `UDI` key order is total; its antisymmetry and transitivity are the lemmas beside it |
| Cells.KeyLeAntisymmetric | src/feature_engineering/build_features.py:11 | two keys each at most the other are equal |
| Cells.KeyLeTransitive | src/feature_engineering/build_features.py:11 | the key order is transitive |
| Stats.SumPermutation | src/feature_engineering/build_features.py:17-19 | a column's sum does not depend on the order of its rows, so neither does the column mean the z-scores subtract |
| Stats.MomentsPermutation | src/feature_engineering/build_features.py:17-19 | mean and population variance are the same for every rearrangement of a column |
| Stats.ConstantIffNoVariance | src/feature_engineering/build_features.py:17-19 | the population variance is 0 exactly when every value equals the first |
| Stats.StandardizeAt | src/feature_engineering/build_features.py:17-19 | element `i` of the standardized sequence is `(xs[i] − m) / s` |
| Stats.StandardizedMoments | src/feature_engineering/build_features.py:17-19 | a z-scored column has mean 0 and, with `s` the population deviation and `s > 0`, population variance 1 |
| Stats.SortReals | src/data_cleaning/clean_data.py:16 | the result is ascending and a permutation of the input |
| Stats.Quantile | src/data_cleaning/clean_data.py:28-29 | pandas' linear quantile lies between the smallest and the largest value |
| Stats.QuantileMonotone | src/data_cleaning/clean_data.py:28-30 | a larger `q` never gives a smaller quantile, so Q1 <= Q3 |
| Stats.Median | src/data_cleaning/clean_data.py:16 | the median lies between the smallest and the largest value |
| Stats.MedianIsMiddleQuantile | src/data_cleaning/clean_data.py:16 | the median is the 0.5 quantile |
| Stats.SortedUnique | src/data_cleaning/clean_data.py:16 | two ascending arrangements of the same values are equal, so medians and quantiles do not depend on row order |
| Frames.IndexOf | src/feature_engineering/build_features.py:11 | position of the first column with a label; none exactly when the label is absent |
| Frames.Lookup | src/feature_engineering/build_features.py:13-19 | `df[name]` is absent exactly when the label is, and otherwise has one cell per row |
| Frames.LookupWithColumn | src/feature_engineering/build_features.py:13-19 | after `df[name] = cells`, `df[name]` is `cells` and every other column reads as before |
| Frames.WithColumn | src/evaluation/anomaly_detection.py:22 | an existing label keeps the labels; a new one is appended on the right; the row count is kept |
| Frames.Drop | src/modeling/train_model.py:17 | `drop(name, axis=1)` succeeds exactly when the column exists; `KeyError` otherwise |
| Frames.DropRemoves | src/modeling/train_model.py:17 | with distinct labels, dropping removes exactly that label and keeps the rest distinct |
| Frames.DropLookup | src/modeling/train_model.py:17 | every other column reads the same after the drop |
| Frames.Project | src/feature_engineering/build_features.py:38 | `df[cols]` succeeds exactly when all listed labels exist; the labels are `cols` in order; every cell is the input's cell of that column; otherwise the error names an absent listed column |
| Frames.ProjectLookup | src/feature_engineering/build_features.py:38 | each projected column equals the same column of the input |
| Frames.LookupSuffix | src/feature_engineering/build_features.py:21 | keeping the rows from `m` on keeps every column from `m` on |
| Frames.SelectAt | src/data_cleaning/clean_data.py:32-35 | boolean selection keeps the masked elements unchanged and in order |
| Frames.SelectMembers | src/data_cleaning/clean_data.py:32-35 | an element is kept iff it occurs at some masked position |
| Frames.SelectColumn | src/data_cleaning/clean_data.py:32-35 | a column of the selected rows is the selection of that column |
| Frames.DedupMembers | src/data_cleaning/clean_data.py:22 | after `drop_duplicates` a row is present iff it was present before |
| Frames.DedupDistinct | src/data_cleaning/clean_data.py:22 | no two kept rows are equal |
| Frames.DedupKeepsFirstOccurrences | src/data_cleaning/clean_data.py:22 | each kept row is the first occurrence of its value, and kept rows are in input order |
| Frames.DedupSnoc | src/data_cleaning/clean_data.py:22 | one more row is kept exactly when it is new |
| Frames.FirstOccurrences | src/data_cleaning/clean_data.py:22 | the first-seen scan returns the same rows as `drop_duplicates` |
| Frames.DropDuplicateRows | src/data_cleaning/clean_data.py:22 | `drop_duplicates()` keeps the labels and replaces the rows by their first occurrences |
| Frames.MapPermutation | src/modeling/train_model.py:63-66 | mapping a rearranged sequence gives a rearrangement of the mapped sequence |
| Frames.DistinctPermutation | src/modeling/train_model.py:63-66 | a rearrangement of a sequence without repeats has none |
| Frames.Frame.SetNames | src/data_cleaning/clean_data.py:12 | `df.columns = labels` relabels the frame and keeps the rows |
| Frames.Frame.SetColumn | src/feature_engineering/build_features.py:13-19 | `df[name] = cells` leaves the frame equal to `WithColumn` of its old contents |
| Frames.Frame.DropDuplicates | src/data_cleaning/clean_data.py:22 | `drop_duplicates(inplace=True)` leaves the frame equal to `DropDuplicateRows` of its old contents |
| Frames.Frame.Rebind | src/data_cleaning/clean_data.py:25 | `df = ...` with a rectangular table makes the frame valid and hold that table |
| Cleaning.StripAllTrimmed | src/data_cleaning/clean_data.py:12 | trimmed labels have no surrounding whitespace, and trimming again changes nothing |
| Cleaning.NumericColumnsMembers | src/data_cleaning/clean_data.py:15 | with distinct labels, a label is a numeric column iff its column holds numbers and NaN only |
| Cleaning.NotNumericHoldsNoNumber | src/data_cleaning/clean_data.py:15 | in a typed table a non-numeric column holds no number |
| Cleaning.ColumnMedian | src/data_cleaning/clean_data.py:16 | the median is NaN exactly when the column has no number, and otherwise lies between two of its numbers |
| Cleaning.ImputeCell | src/data_cleaning/clean_data.py:16 | only NaN cells of listed columns change, each to its column's median over the pre-deduplication table |
| Cleaning.ImputeNoMissing | src/data_cleaning/clean_data.py:16 | a listed column with at least one number has no NaN afterwards, and a numeric column stays numeric |
| Cleaning.ImputeKeepsColumn | src/data_cleaning/clean_data.py:16 | unlisted columns are untouched |
| Cleaning.Levels | src/data_cleaning/clean_data.py:19 | the categories are the distinct present values of `Type`, strictly ascending |
| Cleaning.Encode | src/data_cleaning/clean_data.py:25 | `get_dummies(drop_first=True)` removes `Type` and appends one label `Type_<level>` per level after the first |
| Cleaning.IndicatorsOneHot | src/data_cleaning/clean_data.py:19-25 | at most one indicator is true; all are false exactly when `Type` is the first level or NaN; a later level sets its own indicator |
| Cleaning.EncodeDistinct | src/data_cleaning/clean_data.py:25 | encoding keeps distinct rows distinct when no `Type` is NaN |
| Cleaning.Quartiles | src/data_cleaning/clean_data.py:28-29 | Q1 <= Q3 |
| Cleaning.TukeyFenceOrder | src/data_cleaning/clean_data.py:28-30 | lower fence <= Q1 <= Q3 <= upper fence, and the median lies within the fences |
| Cleaning.FilterSurvivors | src/data_cleaning/clean_data.py:32-35 | a row survives iff every number of a fenced column lies within its inclusive fences |
| Cleaning.FilterSubsequence | src/data_cleaning/clean_data.py:32-35 | the survivors are an order-preserving subsequence of the input, rows unchanged |
| Cleaning.Clean | src/data_cleaning/clean_data.py:9-43 | the stage fails only with clashing labels or with `Type` absent or numeric; on success the output labels are distinct |
| Cleaning.CleanErrors | src/data_cleaning/clean_data.py:9-43 | on the raw table: trimmed labels that clash give `RepeatedColumns`; otherwise `MissingColumn("Type")` iff `Type` is absent or numeric; otherwise the stage succeeds iff the remaining labels and the `Type_` labels of its levels are distinct, and fails with `RepeatedColumns` if not |
| Cleaning.CleanData | src/data_cleaning/clean_data.py:9-43 | run step by step on `df`, the stage leaves the frame equal to `Clean` of its input, or reports `Clean`'s error |
| Cleaning.CleanLabels | src/data_cleaning/clean_data.py:12-25 | output labels are the trimmed input labels in order without `Type`, then `Type_` labels; `Type` is gone |
| Cleaning.IndicatorsNotListed | src/data_cleaning/clean_data.py:15-34 | no indicator column is among the numeric columns, so indicators are neither imputed nor fenced |
| Cleaning.CleanFilter | src/data_cleaning/clean_data.py:28-35 | an output row is an encoded row within every fence of the numeric columns; indicator columns have no fence |
| Cleaning.RowProvenance | src/data_cleaning/clean_data.py:22-35 | every output row is the encoding of some imputed input row |
| Cleaning.CleanNumericCells | src/data_cleaning/clean_data.py:16 | every output cell of a numeric column is a number unless that column had no number in the input |
| Cleaning.CleanDistinctRows | src/data_cleaning/clean_data.py:22-25 | with no NaN `Type`, the output has no two equal rows |
| Cleaning.CleanMayRepeatRows | src/data_cleaning/clean_data.py:22-25 | a concrete two-row table with a NaN `Type` in one row is cleaned into two equal rows |
| Features.SortTable | src/feature_engineering/build_features.py:11 | the sorted rows are in non-decreasing `UDI` order and are a permutation of the input rows |
| Features.KeySortedUnique | src/feature_engineering/build_features.py:11 | with distinct `UDI` values only one ascending arrangement exists |
| Features.SlidingMean | src/feature_engineering/build_features.py:13-15 | the sliding-window loop computes `rolling(5).mean()` row by row |
| Features.WindowMeanBounds | src/feature_engineering/build_features.py:13-15 | a trailing mean exists only from row 4 on, over five numbers, and lies between the smallest and the largest of them |
| Features.ZScores | src/feature_engineering/build_features.py:17-19 | the two-pass loop computes `zscore` of the column |
| Features.ZColumnMoments | src/feature_engineering/build_features.py:17-19 | a z column is all numbers (mean 0, variance 1) exactly when the sensor holds numbers only and `s > 0`, and NaN throughout otherwise |
| Features.ConstantNoDeviation | src/feature_engineering/build_features.py:17-19 | for a non-empty column of numbers, its population deviation is 0 exactly when the column is constant |
| Features.ZColumnAt | src/feature_engineering/build_features.py:17-19 | each z cell is `(x − mean) / s` over the whole column |
| Features.ZColumnPermutation | src/feature_engineering/build_features.py:11-19 | a rearranged column has the same deviation and mean |
| Features.ApplyAllOk | src/feature_engineering/build_features.py:13-19 | the assignments succeed exactly when every source is present and numeric; otherwise they raise the first failing source's error |
| Features.ApplyAllLookup | src/feature_engineering/build_features.py:13-19 | each written column holds its feature of the source as it was before; other columns are unchanged |
| Features.DerivationsSeparate | src/feature_engineering/build_features.py:13-36 | the six new columns are distinct, never read and never raw columns; the ABT labels are distinct |
| Features.ExtendedOk | src/feature_engineering/build_features.py:11-19 | sort and assignments succeed exactly when `UDI` and the three sensors are present and numeric; otherwise the stage error |
| Features.ExtendedTargets | src/feature_engineering/build_features.py:13-19 | the six new columns are the trailing means and z-scores of the sorted sensors |
| Features.ExtendedOthers | src/feature_engineering/build_features.py:11-19 | every other column is the sorted input's |
| Features.ExtendedNames | src/feature_engineering/build_features.py:13-19 | the six new labels are present, and a raw label is present iff it was in the input |
| Features.DropNa | src/feature_engineering/build_features.py:21 | the kept rows are exactly the input rows without NaN, and none has a NaN |
| Features.DropNaSuffix | src/feature_engineering/build_features.py:21 | when exactly the first `m` rows have a NaN, `dropna` keeps the rows from `m` on |
| Features.ProjectAbt | src/feature_engineering/build_features.py:23-38 | with sensors and new columns present, the projection fails exactly when air temperature, tool wear or the label is absent, naming the first |
| Features.BuildFeatures | src/feature_engineering/build_features.py:5-45 | a result has the 12 ABT labels in order and no NaN anywhere |
| Features.BuildFeaturesOk | src/feature_engineering/build_features.py:5-45 | the stage returns a table iff `UDI`, the three readable sensors and the other copied columns are present; otherwise it raises the first error its lines meet |
| Features.ExtendedRows | src/feature_engineering/build_features.py:13-21 | on an input without NaN, the rows with a NaN before `dropna` are exactly the first four |
| Features.BuildFeaturesSuffix | src/feature_engineering/build_features.py:21-38 | on a full input the ABT projects the rows before `dropna` from the fifth on |
| Features.BuildFeaturesColumn | src/feature_engineering/build_features.py:21-38 | on a full input the ABT has `n − 4` rows (none when n < 4); each column is the pre-`dropna` column without its first four rows |
| Features.BuildFeaturesCopied | src/feature_engineering/build_features.py:11-38 | copied columns are the input's ordered by `UDI`, from sorted row 4 on |
| Features.BuildFeaturesRolling | src/feature_engineering/build_features.py:13-38 | the ABT's trailing means are those of the sorted sensors, from row 4 on |
| Features.BuildFeaturesZ | src/feature_engineering/build_features.py:17-38 | the ABT's z-scores use the whole sorted column, the four dropped rows included |
| Features.BuildFeaturesVoid | src/feature_engineering/build_features.py:17-21 | a NaN left in a sensor, or a zero standard deviation for a sensor, leaves the ABT with no rows |
| Features.BuildFeaturesConstantSensor | src/feature_engineering/build_features.py:17-21 | with the deviations the population deviations of the sensors, a constant sensor column (all NaN included) leaves the ABT with no rows |
| Features.ExtendedZMoments | src/feature_engineering/build_features.py:17-19 | with population deviations, each z column has mean 0 and variance 1, or is NaN throughout |
| Features.BuildFeaturesRun | src/feature_engineering/build_features.py:5-45 | the stage run on a frame line by line returns `BuildFeatures` of its input |
| Economics.SumCountsFailures | src/evaluation/rq5_economic_analysis.py:20 | on a 0/1 label, the sum is the number of failure rows |
| Economics.Truncate | src/evaluation/rq5_economic_analysis.py:22 | `int(x)` truncates toward zero: the integer part, always within one of `x` |
| Economics.Conservation | src/evaluation/rq5_economic_analysis.py:22-27 | avoided + remaining = total; cost before = 1000·total; after = 1000·remaining; saved = 1000·avoided |
| Economics.AvoidedBounds | src/evaluation/rq5_economic_analysis.py:14-27 | for a non-negative total, 0 <= avoided <= 0.3·total < avoided + 1, so 0 <= cost after <= cost before and saved >= 0 |
| Economics.AvoidedNegative | src/evaluation/rq5_economic_analysis.py:22-27 | for a negative total the truncation goes toward zero and the saving is not positive |
| Economics.AvoidedWhole | src/evaluation/rq5_economic_analysis.py:15-22 | on a whole count `n`, avoided = ⌊3n / 10⌋ |
| Economics.MetricsReport | src/evaluation/rq5_economic_analysis.py:34-63 | the six metric names in order, each paired with its figure, and the chart's costs are the table's costs before and after |
| Economics.BinaryReport | src/evaluation/rq5_economic_analysis.py:20-27 | on a 0/1 label: total = failure rows `n`; avoided = ⌊3n/10⌋; saving = 1000·⌊3n/10⌋ |
| Economics.Rq5Errors | src/evaluation/rq5_economic_analysis.py:6-22 | on the raw table: the analysis succeeds iff `Machine failure` is present and no row holds a string in it; the error is `KeyError` without the column and the type error otherwise |
| Ranking.SortDesc | src/modeling/train_model.py:63-66 | `sort_values(ascending=False)`: non-increasing, and a permutation of the input |
| Ranking.Head | src/modeling/train_model.py:69 | `head(k)`: the first `min(k, n)` entries, unchanged |
| Ranking.HeadIsLargest | src/modeling/train_model.py:69 | no entry left out has a larger key than one shown |
| Ranking.DescendingUnique | src/modeling/train_model.py:63-66 | with distinct keys every descending arrangement is the same |
| Training.SplitLabel | src/modeling/train_model.py:17-18 | features and target exist exactly when the label does; `KeyError` otherwise |
| Training.SplitLabelColumns | src/modeling/train_model.py:17-18 | the features are every column but the label, unchanged, and the target is the label column |
| Training.MetricsRows | src/modeling/train_model.py:45-58 | rows Accuracy, F1-score, AUC in order; the AUC cell is a number iff classes > 1 and "Not defined" otherwise |
| Training.TopImportancesChosen | src/modeling/train_model.py:63-69 | the chart shows `min(10, n)` pairs; they are non-increasing and the prefix of the ranking; each is a feature with its own importance; none left out is larger |
| Training.TopImportancesDistinct | src/modeling/train_model.py:63-69 | with distinct feature names no feature appears twice on the chart |
| Training.TopImportancesUnique | src/modeling/train_model.py:63-69 | with distinct importances any descending arrangement yields the same chart |
| Training.TrainReports | src/modeling/train_model.py:11-69 | the reports exist exactly when the label is present and there is one importance per feature; otherwise `LengthMismatch` or `KeyError` |
| Anomalies.DetectorInput | src/evaluation/anomaly_detection.py:13 | the detector's input exists exactly when the failure label does, with one row per frame row |
| Anomalies.DetectorInputColumns | src/evaluation/anomaly_detection.py:13 | the detector sees every column but the failure label, unchanged |
| Anomalies.LabelRoundTrip | src/evaluation/anomaly_detection.py:25 | a label maps back to its verdict for 1 and −1; any other verdict gives NaN |
| Anomalies.LabelColumnRows | src/evaluation/anomaly_detection.py:25 | row by row: `Normal` iff 1, `Anomaly` iff −1, NaN otherwise |
| Anomalies.AnnotatedColumns | src/evaluation/anomaly_detection.py:22-25 | `anomaly_score` holds the verdicts, `anomaly_label` their labels, every other column is unchanged |
| Anomalies.AnnotatedRows | src/evaluation/anomaly_detection.py:22-25 | each row is the old row followed by its verdict and its label; the two labels are appended |
| Anomalies.Annotate | src/evaluation/anomaly_detection.py:10-25 | run on the frame, the stage leaves it `Annotated`, or raises `KeyError` without the failure label and leaves it unchanged |
| Anomalies.DistinctValuesMembers | src/evaluation/anomaly_detection.py:29 | the values counted are exactly the non-NaN values of the column |
| Anomalies.ValueCounts | src/evaluation/anomaly_detection.py:29 | counts are in non-increasing order |
| Anomalies.ValueCountsDistinct | src/evaluation/anomaly_detection.py:29 | no value is counted twice |
| Anomalies.ValueCountsSound | src/evaluation/anomaly_detection.py:29 | every entry is a non-NaN value of the column with its positive number of occurrences |
| Anomalies.ValueCountsComplete | src/evaluation/anomaly_detection.py:29 | every non-NaN value of the column has its entry |
| Anomalies.CountsAddUp | src/evaluation/anomaly_detection.py:29 | the counts add up to the number of non-NaN cells, and so to the row count when none is NaN |
| Anomalies.CountTableRows | src/evaluation/anomaly_detection.py:29-30 | each `Label`/`Count` row is a label with its number of occurrences, with counts non-increasing down the table |
| Anomalies.AtMostTwoLabels | src/evaluation/anomaly_detection.py:29-30 | the count table has at most two rows |
| Anomalies.AnomalyCounts | src/evaluation/anomaly_detection.py:22-30 | at most two distinct labels, non-increasing counts, one row per label present; with every verdict ±1 the counts sum to the number of rows |

## Left out

- File I/O: `read_csv`, `to_csv`, `to_excel`, `joblib.dump`, `os.makedirs` and the console output. Each stage takes the table it would read as a value and returns what it would write.
- All matplotlib charting. The chart data (the cost bars, the top ten importances, the label counts) is modelled; the drawing is not.
- The scikit-learn calls: `train_test_split`, the random forest, the isolation forest, accuracy, F1 and ROC-AUC. Their results are parameters: the number of classes, the scores, the importances and the verdicts.
- The `__main__` entry points and the hard-coded paths.
- IEEE-754 doubles. All arithmetic is on exact reals: medians, quantiles, means, z-scores and `total * 0.3`.
- Economics.Truncate: `int(total * 0.3)` is truncation of the exact product. The double product can round differently for some huge counts.
- Features.ZColumn: the square root is not modelled. The population standard deviation is a parameter, tied to its column by `IsStd`. A zero deviation gives NaN, as scipy's `0/0` does.
- Features.SortTable: pandas' default sort is not stable. The model sorts stably, and `KeySortedUnique` proves the result is the same for any sort when `UDI` values are distinct.
- Ranking.SortDesc: the order of equal importances is the model's stable choice. `TopImportancesUnique` proves any descending order gives the same chart when importances are distinct.
- Anomalies.ValueCounts: the order among equal counts is not fixed. The model ties by first appearance.
- Cells.KeyLe: a sort key column mixing numbers, strings and booleans raises in pandas. The model orders such cells by kind instead.
- Cells.Strip: Unicode whitespace beyond the characters listed in `IsSpace` is not modelled, and neither is normalisation.
- Cleaning.Clean: pandas accepts repeated labels after trimming or encoding. The model reports them as `RepeatedColumns`, and `CleanData` may leave a partly processed frame behind on an error.
- Cleaning.Clean: a numeric `Type` column raises `KeyError` at the quartile step, because encoding removed it but it is still listed as numeric. It is modelled as `MissingColumn("Type")`, with the later steps not run.
- Cleaning.Typed: `read_csv` type inference is a precondition. Within a column, present cells are all numbers, all strings or all booleans.
- Features.Usable: boolean sensor columns are treated as non-numeric, i.e. as the stage raising. Pandas would average `True` as 1.
- Features.ColumnOf reads an absent column as all NaN. The stage never reaches such a read without having raised first.
- Economics.Amount: `sum()` counts booleans as 1 and 0 and skips NaN. A string in the label raises, modelled as `NotNumeric`.
- Features.BuildFeaturesRun: the six column assignments run as a loop over a list of six derivations, in the order `build_features` writes them.
- Training.ReportedAuc: the guard tests the forest's training classes (`src/modeling/train_model.py:45`), not the test labels. A split that leaves `y_test` with a single class while the forest learned two makes `roc_auc_score` (line 47) fail; the model takes the score as a given real, so that error path is not modelled.
- Frames.Drop: pandas drops every column with the label; the model drops the first. `read_csv` gives distinct labels, and `SplitLabel`, `DetectorInput` and `TrainReports` (whose importance count is one less than the label count) rely on a single removal; `DropRemoves` states the distinct case.
- Anomalies.Annotate: the verdicts must have one entry per row. `fit_predict` guarantees this and the model requires it.
