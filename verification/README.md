# Uplift estimation core, modelled in Dafny

This project models the quantitative core of `Functions/data_utils.py`, a set of
helpers for measuring the uplift of marketing incentives: the extra share of
customers who come back when treated with an incentive, compared with a
control group. It has two parts.

- **Binned uplift curve** (`uplift_by_decile_bin`). A score-ordered population
  of `n` rows is cut into `size` contiguous bins. Bin `b` spans rows
  `[ceil(n(b-1)/size), ceil(nb/size))`. In each bin, every row is classified as
  control, treated or neither. Text labels are control when the trimmed,
  lower-cased label starts with `control`, and treated when they are not
  control and end in a digit. Numeric codes are control when they are `0` and
  treated when they are present and non-zero. The model then counts rows and
  conversions per group. Rates are conversions over count, or 0 for an empty
  group. The uplift is the treated rate minus the control rate. Running sums over
  the bins give the cumulative rates, the cumulative population fraction and the
  incremental gains, which are (cumulative treated rate − cumulative control
  rate) × population fraction.
- **Modified-outcome estimator**.
  - `get_treatment_probs_from_y_true` reads each label's arm from its last
    character, a digit, and returns the share of each arm that occurs, in
    ascending arm order.
  - `uplift_mmoa` combines four predicted-probability columns with those priors
    into a per-customer uplift estimate
    `(rk/pk + nr0/p0) − (nrk/pk + r0/p0)`.
  - `add_uplifts` adds an `uplift_{k}` column to a copy of the table for every
    arm `k` whose four input columns exist.

Module layout:

| file | module | what it holds |
|---|---|---|
| `wrappers.dfy` | `Wrappers` | `Option` and `Result` |
| `decimal.dfy` | `Decimal` | digits and the decimal spelling of integers, used in column names |
| `binning.dfy` | `Binning` | the ceiling division and the bin boundaries |
| `labels.dfy` | `Labels` | trimming, lower-casing and the control/treated classification |
| `uplift_curve.dfy` | `UpliftCurve` | the bin and curve statistics, their reference definitions, and the two-loop method |
| `treatment_probs.dfy` | `TreatmentProbs` | the arm priors read from the labels |
| `modified_outcome.dfy` | `ModifiedOutcome` | the per-row estimator over a table of columns |
| `aggregator.dfy` | `Aggregator` | the `Frame` class and the loop that adds one uplift column per arm |

Numbers are exact: probabilities and rates are `real`, and counts and outcomes
are `int`/`nat`. A table is a map from column name to a sequence of reals, and
all its columns have the same length.

Two consequences of the code are worth stating:

- **Bin sizes.** The ceiling boundaries make any two bins differ by at most
  one row, and the larger bins need not come last. For example, 5 rows in 10
  bins alternate bins of 0 and 1 rows. `Binning.BinSizesBalanced` states this.
- **Priors summing to 1.** A label without a trailing digit makes the whole
  computation fail, so in exact arithmetic the shares of a successful
  non-empty result sum to 1 (`TreatmentProbs.ProbabilitiesSumToOne`). The
  code adds floating-point shares, whose sum need not be exactly 1.0.

The code does not guard three degenerate cases. The model turns each into an
explicit error:

- an empty population gives `EmptyPopulation`;
- a non-positive bin count gives `NoBins`;
- a zero or absent prior gives `DegenerateProbability`.

In the code, these produce NaN, an empty frame that raises on `sort_values`,
and infinite parts with a NaN estimate respectively.

## Model

| member | source | states |
|---|---|---|
| `Binning.CeilDivBounds` | Functions/data_utils.py:38-39 | the integer ceiling `c` of `x/s` is the least value with `c*s >= x`: `c*s >= x` and `(c-1)*s < x`, for every `x >= 0` |
| `Binning.BoundaryRange` | Functions/data_utils.py:37-39 | the first bin starts at row 0 and the last bin ends at row `n` |
| `Binning.BoundaryMonotone` | Functions/data_utils.py:38-39 | bin boundaries never decrease with the bin index, so consecutive bins share a boundary and do not overlap |
| `Binning.BinSizeNearQuotient` | Functions/data_utils.py:38-40 | every bin has `n/size` or `n/size + 1` rows (floor division) and its start is not after its end |
| `Binning.BinSizesBalanced` | Functions/data_utils.py:37-40 | the row counts of any two bins differ by at most one |
| `Binning.RowInExactlyOneBin` | Functions/data_utils.py:37-40 | every row index below `n` lies in some bin `b` in `1..size`, and in no other |
| `Labels.Lower` | Functions/data_utils.py:46 | lower-casing keeps the length and maps each character through ASCII case folding |
| `Labels.Strip` | Functions/data_utils.py:45 | the trimmed label is a contiguous piece of the label with no whitespace at either end, and everything removed before and after it is whitespace |
| `Labels.TrailingDigitOfTrimmed` | Functions/data_utils.py:52 | on a label that does not end in whitespace, the pattern "a digit, then only whitespace, at the end" matches exactly when the last character is a digit |
| `Labels.TreatedMeaning` | Functions/data_utils.py:43-59 | a treated row is never a control row; a text label is treated exactly when it is not control and its normalised form is non-empty and ends in a digit |
| `Labels.Classify` | Functions/data_utils.py:43-59 | the group is Control exactly when the label is control, and Treated exactly when it is treated, so no row is counted in both groups |
| `Labels.ControlExample` | Functions/data_utils.py:45-49 | `"Control_2 "` (mixed case, trailing space) is control and not treated |
| `Labels.TreatedExample` | Functions/data_utils.py:51-53 | `"incentive3"` is treated and not control |
| `Labels.NeitherExample` | Functions/data_utils.py:51-53 | `"incentive"` is neither control nor treated |
| `Labels.CodeExamples` | Functions/data_utils.py:56-59 | code 0 is control; codes 2 and -1 are treated; a missing code is neither |
| `UpliftCurve.Rate` | Functions/data_utils.py:67-68 | the rate of an empty group is 0.0, never undefined; for a non-empty group the rate times the group count is its conversions, so the rate is the mean outcome |
| `UpliftCurve.BinWithinRows` | Functions/data_utils.py:38-40 | each bin's slice lies within the rows: `start <= end <= n` |
| `UpliftCurve.TallySplit` | Functions/data_utils.py:61-65 | the counts of rows `[lo, hi)` are the counts of `[lo, mid)` plus those of `[mid, hi)` |
| `UpliftCurve.BinRates` | Functions/data_utils.py:61-82 | per bin, each rate times its group count is the group's conversions (0.0 for an empty group), and the uplift is the treated rate minus the control rate |
| `UpliftCurve.PrefixSplit` | Functions/data_utils.py:88-91 | the counts of the rows up to the end of bin `b` are those up to the start of bin `b` plus bin `b`'s own |
| `UpliftCurve.CumulativeIsRunningSum` | Functions/data_utils.py:88-91 | each cumulative count is the previous bin's cumulative count plus this bin's count, and at bin 1 it is bin 1's count |
| `UpliftCurve.CumulativeMonotone` | Functions/data_utils.py:88-91 | cumulative treated and control counts never decrease with the bin index, nor do cumulative conversions when outcomes are non-negative |
| `UpliftCurve.LastBinTotals` | Functions/data_utils.py:88-101 | at the last bin the cumulative counts are the whole-population counts and the cumulative row count is `n` |
| `UpliftCurve.CumulativeRates` | Functions/data_utils.py:93-101 | cumulative rates are cumulative conversions over cumulative count, and 0.0 while a group has no rows yet; the population fraction is the bin's end over `n` |
| `UpliftCurve.LastBinGain` | Functions/data_utils.py:101-106 | at the last bin the population fraction is 1 and the incremental gain is the overall treated rate minus the overall control rate |
| `UpliftCurve.RateInUnitInterval` | Functions/data_utils.py:67-68 | a rate with no more conversions than rows lies in [0, 1] |
| `UpliftCurve.BinaryOutcomesBounded` | Functions/data_utils.py:61-68 | with 0/1 outcomes, over any range of rows the conversions of each group lie between 0 and the group count and both rates lie in [0, 1] |
| `UpliftCurve.LastBinFraction` | Functions/data_utils.py:101 | the cumulative population fraction of the last bin is exactly 1 |
| `UpliftCurve.BinTable` | Functions/data_utils.py:37-84 | the first loop yields one record per bin, equal to the reference statistics of that bin, and its row total is `n` |
| `UpliftCurve.Accumulate` | Functions/data_utils.py:88-101 | the second pass yields one row per bin table entry, in order; row `i` carries entry `i` with the counts and the row total summed over entries `0..i` |
| `UpliftCurve.RunningSumsArePrefixTallies` | Functions/data_utils.py:88-91 | over a table of the reference bins, the running sums up to bin `k` are the counts of the rows before boundary `k`, and they cover exactly those rows |
| `UpliftCurve.RunningRowIsReference` | Functions/data_utils.py:86-106 | each row built from running sums over the bin table equals the reference curve row computed from prefix counts |
| `UpliftCurve.UpliftByDecileBin` | Functions/data_utils.py:25-108 | a non-positive bin count fails with NoBins; an empty population fails with EmptyPopulation; otherwise curve row `i` is the reference row of bin `i + 1` |
| `Decimal.NatToStringRoundTrip` | Functions/data_utils.py:191-194 | reading back the decimal spelling of a number gives the number |
| `Decimal.IntToStringInjective` | Functions/data_utils.py:191-194 | different arms get different spellings, so column names built from them differ |
| `TreatmentProbs.ArmCode` | Functions/data_utils.py:165-169 | a label has an arm code exactly when it is non-empty and its last character is a digit, and the code is that digit's value |
| `TreatmentProbs.ArmCodes` | Functions/data_utils.py:165-169 | either every label has a code and the codes are listed in row order, or the first label without one is reported |
| `TreatmentProbs.SharesFromAscending` | Functions/data_utils.py:170-173 | the listed arms ascend strictly |
| `TreatmentProbs.SharesFromValues` | Functions/data_utils.py:170-172 | every listed arm occurs among the codes and carries its count over the number of labels |
| `TreatmentProbs.SharesFromArms` | Functions/data_utils.py:170-172 | the listed arms are exactly the arms from `d` to 9 that occur among the codes |
| `TreatmentProbs.GetTreatmentProbs` | Functions/data_utils.py:156-175 | fails exactly when some label lacks a trailing digit; otherwise it gives the arms present in ascending order, each with its share of the labels, and an empty label list gives an empty result |
| `TreatmentProbs.CountFromAll` | Functions/data_utils.py:170 | counting codes arm by arm over 0..9 counts every label exactly once |
| `TreatmentProbs.ProbabilitiesSumToOne` | Functions/data_utils.py:170-173 | for a non-empty label list the shares add up to 1 |
| `TreatmentProbs.Example` | Functions/data_utils.py:162-173 | labels `cameback_0, cameback_0, cameback_1` give arm 0 the share 2/3 and arm 1 the share 1/3 |
| `ModifiedOutcome.ColumnName` | Functions/data_utils.py:191-194 | probability columns are named `p_{prefix}_{k}`; every such name starts with `p_` |
| `ModifiedOutcome.AbsentArmIsDegenerate` | Functions/data_utils.py:196-202 | an arm missing from the prior map gets prior 0.0, so when its four input columns are present the estimate for it fails with a degenerate prior for that arm |
| `ModifiedOutcome.RowEstimate` | Functions/data_utils.py:199-204 | the estimate as written equals `(rk − nrk)/pk + (nr0 − r0)/p0` |
| `ModifiedOutcome.UpliftMmoa` | Functions/data_utils.py:182-221 | succeeds exactly when the four columns exist and both priors are non-zero; a missing column is reported before a zero prior, and a zero prior of arm `k` before one of arm 0; row `i` of tau is the row estimate of row `i`; the parts are returned exactly when asked for, each part is its input column divided by its arm's prior, and they carry both priors and reproduce tau row by row |
| `ModifiedOutcome.MissingColumnOrder` | Functions/data_utils.py:191-202 | the missing column reported is the first of `rk`, `nr0`, `nrk`, `r0` that the table lacks |
| `ModifiedOutcome.BalancedRowHasNoUplift` | Functions/data_utils.py:199-204 | equal probabilities of coming back and not coming back under both arms give an uplift of 0 |
| `ModifiedOutcome.FavourableRowHasNonNegativeUplift` | Functions/data_utils.py:199-204 | with positive priors, `rk >= nrk` and `nr0 >= r0` give a non-negative uplift |
| `ModifiedOutcome.ControlArmHasNoUplift` | Functions/data_utils.py:191-204 | the estimate for arm 0 against itself is 0 on every row |
| `ModifiedOutcome.RowLocality` | Functions/data_utils.py:199-204 | row `i` of the estimate equals the estimate of the table cut down to row `i` |
| `Aggregator.UpliftName` | Functions/data_utils.py:258 | uplift columns are named `uplift_{k}` |
| `Aggregator.UpliftNameInjective` | Functions/data_utils.py:258 | different arms write different uplift columns |
| `Aggregator.UpliftNameIsNoInput` | Functions/data_utils.py:240-258 | an uplift column is never one of the probability columns that an estimate reads |
| `Aggregator.MmoaReadsOnlyInputs` | Functions/data_utils.py:191-204 | two tables that agree on an arm's four input columns give that arm the same estimate |
| `Aggregator.AddArm` | Functions/data_utils.py:240-258 | the loop body keeps every column the same length |
| `Aggregator.AddAll` | Functions/data_utils.py:237-258 | the loop over the arms keeps every column the same length |
| `Aggregator.AddAllMeaning` | Functions/data_utils.py:237-258 | succeeds exactly when no arm with all its inputs lacks a prior. On success the result holds the original columns plus the uplift columns of the processed arms. Each uplift column equals the estimate computed from the original table, and every other column is unchanged |
| `Aggregator.ArmSkippedIffInputsMissing` | Functions/data_utils.py:240-247 | an arm gets a new uplift column exactly when its four input columns are all present |
| `Aggregator.FailureSticks` | Functions/data_utils.py:249-258 | once an arm fails, processing the remaining arms returns that same failure |
| `Aggregator.Frame.constructor` | Functions/data_utils.py:237 | a frame holds the given columns, all of the given height |
| `Aggregator.Frame.Copy` | Functions/data_utils.py:237 | the copy is a new frame with the same height and columns |
| `Aggregator.Frame.SetColumn` | Functions/data_utils.py:258 | assigning a column adds or replaces that column only, keeping the height |
| `Aggregator.AddUplifts` | Functions/data_utils.py:228-260 | the frame passed in is unchanged; the result is a new frame whose columns are those of the reference loop `AddAll`, or the failure it reports |

## Left out

- `coerce_metrics_to_numeric` (lines 15-23) and `plot_incremental_response_rate` (lines 112-148) are not part of this model. The first relies on pandas regex replacement and float parsing; the second is plotting.
- IEEE floating point, NaN and infinity are not modelled. Arithmetic is exact over `real`. The undefined cases are explicit errors, as described above.
- The two classification modes are not modelled as a `binary_uplift` flag. Each label carries its own kind instead: `Text` labels use the string rules and `Code` labels the numeric rules. Mixed cases are not modelled: a numeric column read in string mode (through `astype(str)`), and a string column read in numeric mode, where any non-missing string such as `"control_1"` is unequal to 0 and therefore counted as treated.
- Case folding and digit and whitespace classes are ASCII only; Unicode lower-casing and Unicode digits are not modelled.
- Outcomes are integers. The source truncates a float sum of outcomes with `int(...)`, and non-integer outcomes are not modelled.
- `UpliftCurve.Rate`: missing outcomes are not modelled, so every row carries an integer outcome. In the source, the per-bin rate is a mean that skips missing values, so it divides by the number of present outcomes (and is undefined for a group whose outcomes are all missing), while the cumulative rates divide by the full group count. The per-bin rates of the model therefore equal the source's only when every outcome is present.
- The table is a map from column name to a sequence of reals. Column order, the pandas index and index alignment, dtypes and non-numeric columns are not modelled.
- `get_treatment_probs_from_y_true` takes the label column as a list of strings. How `astype(str)` turns non-string values (missing values become `"nan"`) into strings is not modelled.
- `UpliftMmoa`: the parts are returned as a record rather than a labelled frame, and their column names (`part_rt_{k}` and so on) are not modelled.
- `UpliftMmoa`: a zero prior is an error, reported after the missing-column checks. The source would instead divide by zero, giving infinite parts and a NaN estimate wherever two infinite parts cancel (or a zero column value is divided by zero).
- `UpliftByDecileBin` takes the rows already in score order. Which column holds the treatment label and which the outcome are parameters of the source that the model fixes to the two fields of `Row`.
- That the modified-outcome estimate is unbiased in expectation is a statistical property over a distribution, and it is not stated.
