# Loan approval: fairness evaluator and preprocessor

This project models the two components of the loan-approval service that
hold its checkable logic, over exact real arithmetic.

- **The fairness evaluator** (`FairnessMetrics`). It splits labelled
  predictions by the protected attribute. Code 0 is the privileged group
  (low income variability) and code 1 the unprivileged group (high income
  variability). For each group it counts a binary confusion matrix and derives
  four rates: true-positive rate, false-positive rate, approval rate and
  accuracy. It then combines the two groups into three measures: disparate
  impact, equal-opportunity difference and demographic-parity difference. The
  last report is the object's only state. `is_fair` applies a threshold
  policy and lists the failed checks in a fixed order.
- **The loan preprocessor** (`LoanPreprocessor`). It adds the debt-to-income
  and loan-to-income ratios. It encodes employment status as an ordinal,
  loan purpose as one-hot indicator columns and income variability as a 0/1
  flag. It standard-scales eight numeric features with a per-feature mean and
  scale learned by `fit_transform` and reused by `transform`. After fitting it
  keeps a statistics snapshot of the scaled features.

Files:

- `outcomes.dfy`: `Option` and `Result`.
- `group_metrics.dfy`: the confusion matrix and the rates of one group.
- `fairness.dfy`: group selection, the report, the threshold policy and the
  `FairnessMetrics` class.
- `statistics.dfy`: sum, mean, variances, minimum and maximum, and what
  standardizing does to them.
- `preprocessing.dfy`: rows, derived ratios, encodings, the scaler, the
  statistics snapshot and the `LoanPreprocessor` class.
- `pipeline.dfy`: the encoded income-variability flag used as the protected
  attribute.

Modelling choices:

- Labels are booleans: `true` is class 1.
- Protected values are integers.
- A table is a sequence of row records. Tables are values, so a caller's
  table is never changed. This matches the copies the source makes before
  every stage.
- The fitted standard deviation is supplied by the caller of
  `FitTransform`. It must be non-negative and its square must be the
  population variance of the prepared column (`DeviationsOf`). A zero
  deviation becomes scale 1, as in the scaler the source uses.
- A ratio with a zero denominator has no value (`None`). Such a table is
  rejected like the scaler rejects infinite input.
- `fit_transform` on a rejected table leaves the scaler unfitted. The scaler
  clears its fitted state before validating its input. The previous
  statistics snapshot stays in place.

## Model

| member | source | states |
|---|---|---|
| GroupMetrics.ConfusionMatrix | src/fairness/metrics.py:71 | every position of a group falls in exactly one cell; tp + fn is the number of actual positives and tp + fp the number of approvals |
| GroupMetrics.ConfusionCells | src/fairness/metrics.py:71 | each counted cell equals the size of the set of positions with that (true, predicted) pair |
| GroupMetrics.CountTrueZero | src/fairness/metrics.py:76 | a group has no approvals exactly when every prediction in it is negative |
| GroupMetrics.Rate | src/fairness/metrics.py:74-77 | the guarded division: 0 when the denominator is 0, otherwise a value in [0, 1] that times the denominator gives the numerator |
| GroupMetrics.GroupRates | src/fairness/metrics.py:69-80 | all four rates of a group lie in [0, 1]; an empty group gets all four rates 0 |
| GroupMetrics.GroupRatesMeaning | src/fairness/metrics.py:73-78 | TPR, FPR, approval rate and accuracy are the shares of the counted positions over actual positives, actual negatives and the whole group, 0 over an empty set; the approval rate is 0 exactly when nobody is approved |
| GroupMetrics.TruePositiveRateMeaning | src/fairness/metrics.py:74 | TPR is the share of correctly approved positions among the actual positives, 0 when there are none |
| GroupMetrics.FalsePositiveRateMeaning | src/fairness/metrics.py:75 | FPR is the share of wrongly approved positions among the actual negatives, 0 when there are none |
| GroupMetrics.ApprovalRateMeaning | src/fairness/metrics.py:76 | the approval rate is the share of approved positions in the group, and it is 0 exactly when no one is approved |
| GroupMetrics.AccuracyMeaning | src/fairness/metrics.py:77 | accuracy is the share of positions whose prediction equals the label |
| GroupMetrics.GroupRatesAsWritten | src/fairness/metrics.py:71 | as written, the group rates exist exactly when some position of the group shows a positive and some position shows a negative, and then equal the counted rates; otherwise the call raises |
| GroupMetrics.BothClassesPresent | src/fairness/metrics.py:71 | the labels the confusion matrix finds are both classes exactly when some position shows a positive and some position shows a negative |
| GroupMetrics.OneClassGroupRaisesAsWritten | src/fairness/metrics.py:71 | an empty group and an all-negative group raise as written, while the counted rates are defined for both |
| Fairness.GroupIndices | src/fairness/metrics.py:39-40 | the mask selects only positions inside the batch |
| Fairness.GroupIndicesExact | src/fairness/metrics.py:39-40 | the group of a code holds every position carrying that code, only those, in increasing order |
| Fairness.GroupSize | src/fairness/metrics.py:39-40 | the size of a group is the number of positions carrying its code |
| Fairness.GroupsPartition | src/fairness/metrics.py:39-40 | when every protected value is 0 or 1, the two group sizes add up to the batch length |
| Fairness.Select | src/fairness/metrics.py:43-46 | the masked selection holds one entry per position carrying the code, the k-th being the entry at the group's k-th position, so the entries keep their order |
| Fairness.GroupMemberSelected | src/fairness/metrics.py:43-46 | the entry of every position carrying the code is among the selected entries |
| Fairness.SelectedFromGroup | src/fairness/metrics.py:43-46 | every selected entry is the entry of a position carrying the code |
| Fairness.GroupCells | src/fairness/metrics.py:43-46 | each confusion cell of a group's selected labels and predictions counts exactly the batch's positions that carry the code and have that pair of labels |
| Fairness.SelectIgnoresOutsiders | src/fairness/metrics.py:43-46 | changing a label outside a group leaves that group's selected labels unchanged |
| Fairness.OtherCodesIgnored | src/fairness/metrics.py:39-46 | a position with a protected value other than 0 or 1 affects no measure and no rate of the report |
| Fairness.DisparateImpact | src/fairness/metrics.py:49 | undefined exactly when the privileged approval rate is 0; otherwise the ratio that times the privileged rate gives the unprivileged rate |
| Fairness.ComputeReport | src/fairness/metrics.py:38-57 | both groups' rates are the counted rates of exactly their positions; the disparate impact is the unprivileged over the privileged approval rate, undefined when the latter is 0; the differences are unprivileged minus privileged TPR and approval rate, each in [-1, 1]; a defined disparate impact is non-negative |
| Fairness.DisparateImpactUndefined | src/fairness/metrics.py:49 | the disparate impact is undefined exactly when no privileged position is predicted positive, including an empty privileged group |
| Fairness.ParityMeasuresAgree | src/fairness/metrics.py:48-57 | a defined disparate impact is 1 exactly when the demographic-parity difference is 0 |
| Fairness.ComputeReportAsWritten | src/fairness/metrics.py:43-46 | as written, a report exists exactly when both groups' rates exist as written (both groups non-empty and showing both classes), and then equals the counted report |
| Fairness.FailedChecks | src/fairness/metrics.py:123-132 | each reason appears exactly when its check fails, at most once, in the order disparate impact, equal opportunity, demographic parity |
| Fairness.Join | src/fairness/metrics.py:135 | the joined text is empty for no parts, is the part itself for one, starts with the first part, and is as long as all parts plus one separator between each two |
| Fairness.JoinSnoc | src/fairness/metrics.py:135 | joining one more part appends the separator and that part, so every part appears in order with one separator between each two |
| Fairness.FairnessVerdict | src/fairness/metrics.py:120-137 | fair exactly when a report exists and all three measures are within the threshold; otherwise the fixed no-metrics message, or the prefix followed by the failed reasons joined by "; " |
| Fairness.PolicyHoldsIffNoFailure | src/fairness/metrics.py:123-137 | all three criteria are met exactly when the list of failed checks is empty |
| Fairness.ThresholdMonotone | src/fairness/metrics.py:123-130 | a check that fails at a larger threshold fails at a smaller one, so fair at t implies fair at every t' >= t |
| Fairness.FairnessMetrics.constructor | src/fairness/metrics.py:13-21 | the protected attribute defaults to income_variability and no report is stored |
| Fairness.FairnessMetrics.CalculateMetrics | src/fairness/metrics.py:23-67 | the new report replaces the stored one entirely and is returned; inputs of different lengths fail and leave the stored report as it was |
| Fairness.FairnessMetrics.IsFair | src/fairness/metrics.py:110-137 | the verdict of the threshold policy on the stored report, default threshold 0.2, with no change of state |
| Fairness.FairnessMetrics.GetFairnessReport | src/fairness/metrics.py:82-85 | the no-metrics message before any calculation, otherwise the stored report |
| Fairness.ExampleGroups | src/fairness/metrics.py:39-46 | protected values [0, 0, 1, 1] select positions 0, 1 and 2, 3 |
| Fairness.ExampleReport | src/fairness/metrics.py:38-80 | labels [1, 1, 0, 0] and predictions [1, 0, 0, 0] give a disparate impact of 0 and differences of -0.5 |
| Fairness.ExampleVerdict | src/fairness/metrics.py:120-137 | that report fails all three checks at threshold 0.2, and they are listed in order |
| Fairness.ExampleRaisesAsWritten | src/fairness/metrics.py:43-46 | as written, the same batch raises because its unprivileged group shows only class 0 |
| Statistics.PopulationVariance | src/preprocessing/preprocessor.py:41 | the ddof = 0 variance, whose square root the scaler divides by, is never negative |
| Statistics.SampleVariance | src/preprocessing/preprocessor.py:97 | the ddof = 1 variance is defined exactly for two values or more, and is then non-negative |
| Statistics.Min | src/preprocessing/preprocessor.py:98 | a value of the column that no other value is below |
| Statistics.Max | src/preprocessing/preprocessor.py:99 | a value of the column that no other value is above |
| Statistics.MeanBetweenMinMax | src/preprocessing/preprocessor.py:96-99 | the mean lies between the minimum and the maximum |
| Statistics.StandardizedMeanZero | src/preprocessing/preprocessor.py:41 | a column centred on its mean and divided by any non-zero scale has mean 0 |
| Statistics.StandardizedUnitVariance | src/preprocessing/preprocessor.py:41 | a column centred on its mean and divided by its population standard deviation has population variance 1 |
| Preprocessing.LoanToIncomeRatio | src/preprocessing/preprocessor.py:69 | defined exactly when the income is non-zero, and then times the income gives the loan amount |
| Preprocessing.DebtToIncomeRatio | src/preprocessing/preprocessor.py:66 | defined exactly when income and term are non-zero, and then times income * term / 12 gives the loan amount |
| Preprocessing.CreateDerivedFeatures | src/preprocessing/preprocessor.py:61-71 | every row is kept and gains its own two ratios, each defined exactly when its denominator is non-zero, and then times its denominator gives the loan amount |
| Preprocessing.RatiosAgree | src/preprocessing/preprocessor.py:66-69 | debt-to-income times the term equals 12 times loan-to-income |
| Preprocessing.DerivedExample | tests/unit/test_preprocessor.py:50-55 | the sample rows give loan-to-income 0.4, 0.5, 4/7 and debt-to-income 0.4, 0.25, 4/21 |
| Preprocessing.EmploymentCode | src/preprocessing/preprocessor.py:78-83 | a code exists exactly for Employed, Self-Employed and Unemployed, and it lies in 0..2 |
| Preprocessing.EmploymentStatusName | src/preprocessing/preprocessor.py:78-83 | a status name exists exactly for the codes 0..2 |
| Preprocessing.EmploymentRoundTrip | src/preprocessing/preprocessor.py:78-83 | decoding an encoded status gives it back, and encoding the status of each code 0..2 gives that code |
| Preprocessing.IncomeVariabilityFlag | src/preprocessing/preprocessor.py:89 | 1 exactly for High and 0 for every other value |
| Preprocessing.PurposeColumn | src/preprocessing/preprocessor.py:86 | the indicator column is the prefix purpose_ followed by the purpose itself |
| Preprocessing.PurposeColumnInjective | src/preprocessing/preprocessor.py:86 | distinct purposes get distinct indicator columns |
| Preprocessing.PurposeColumnIsNotSource | src/preprocessing/preprocessor.py:86 | no indicator column is named loan_purpose |
| Preprocessing.Purposes | src/preprocessing/preprocessor.py:86 | the distinct purposes are exactly those occurring in some row |
| Preprocessing.PurposeColumns | src/preprocessing/preprocessor.py:86 | every row's purpose has its column, every column comes from some row, and loan_purpose is not a column |
| Preprocessing.PurposeColumnsCount | src/preprocessing/preprocessor.py:86 | there are exactly as many indicator columns as distinct purposes in the batch |
| Preprocessing.PurposeIndicators | src/preprocessing/preprocessor.py:86 | a row has a value for every column of the batch, true exactly for its own purpose's column |
| Preprocessing.EncodeRow | src/preprocessing/preprocessor.py:73-91 | a row gets an employment code exactly for a mapped status, and decoding the code gives the status back; the flag is 1 exactly for High and 0 otherwise; it has every indicator column of the batch, set exactly for its own purpose |
| Preprocessing.EncodeCategoricalFeatures | src/preprocessing/preprocessor.py:73-91 | the indicator columns are those of this batch; every row i gets the employment code of df[i]'s status (none for an unmapped one), the variability flag of df[i] and the indicators of df[i]'s purpose; codes lie in 0..2 and flags are 0 or 1 |
| Preprocessing.ExactlyOneIndicator | src/preprocessing/preprocessor.py:86 | in every row exactly one indicator is set: its own purpose's column |
| Preprocessing.SchemaDrift | src/preprocessing/preprocessor.py:52 | the indicator columns follow the batch: three for the sample table, one for a batch holding only a car loan |
| Preprocessing.EncodingExample | tests/unit/test_preprocessor.py:62-73 | the sample encodes to employment codes 2, 1, 0 and flags 0, 1, 0 |
| Preprocessing.Prepare | src/preprocessing/preprocessor.py:30-41 | the scaler rejects an empty table, and a table with a zero income or term, and nothing else; every prepared row carries its input row's six raw numeric columns and its two ratios, the encoded categorical columns and its label, under the batch's indicator columns |
| Preprocessing.ScaleFor | src/preprocessing/preprocessor.py:41 | the scale is the standard deviation, or 1 when that is 0, so it is always positive |
| Preprocessing.FitScaler | src/preprocessing/preprocessor.py:41 | fitting learns each feature's column mean and a positive scale |
| Preprocessing.ScaleValue | src/preprocessing/preprocessor.py:41 | a scaled value times the scale plus the mean gives the value back |
| Preprocessing.Standardize | src/preprocessing/preprocessor.py:41 | every scaled feature of a row is recovered by multiplying by its scale and adding its mean |
| Preprocessing.StandardizedValue | src/preprocessing/preprocessor.py:41 | each scaled feature is the feature minus the mean, divided by the scale |
| Preprocessing.ScaleFrame | src/preprocessing/preprocessor.py:41 | scaling standardizes the numeric columns of every row and leaves the indicator columns, the categorical columns and the labels unchanged |
| Preprocessing.StoreFeatureStats | src/preprocessing/preprocessor.py:93-100 | for every one of the eight features the snapshot holds the mean, the ddof = 1 variance, the minimum and the maximum of that feature's column |
| Preprocessing.FeatureStatsBounds | src/preprocessing/preprocessor.py:95-100 | each stored mean lies between the stored minimum and maximum, and the spread is defined exactly for two rows or more |
| Preprocessing.Fit | src/preprocessing/preprocessor.py:17-46 | fitting fails exactly when preparation does, with the same error; a fit yields a valid scaler and one output row per input row with the batch's indicator columns |
| Preprocessing.TransformWith | src/preprocessing/preprocessor.py:48-59 | an unfitted scaler fails; a fitted one succeeds exactly when preparation does, keeps the batch's indicator columns and encoded rows, and standardizes every prepared row with the given scaler |
| Preprocessing.FitThenTransform | tests/unit/test_preprocessor.py:100-111 | transforming the table the scaler was fitted on reproduces the fitted output |
| Preprocessing.TransformPrepared | src/preprocessing/preprocessor.py:48-59 | with a fitted scaler, transform scales exactly the prepared batch with that scaler |
| Preprocessing.TransformedRow | src/preprocessing/preprocessor.py:48-59 | each transformed feature, times its scale plus its mean, is the input row's raw column or its derived ratio |
| Preprocessing.TransformUsesFit | src/preprocessing/preprocessor.py:41-58 | a batch transformed after a fit is centred on the fitted table's column means and divided by the fitted scales, whatever the batch holds |
| Preprocessing.RestoreStandardized | src/preprocessing/preprocessor.py:41 | standardizing a row and then multiplying back by the scale and adding the mean gives the row back |
| Preprocessing.FittedRows | src/preprocessing/preprocessor.py:41-44 | a fit learns its scaler from the prepared table, outputs the prepared rows standardized with that scaler, and keeps the snapshot of the output |
| Preprocessing.FitCentres | tests/unit/test_preprocessor.py:96-97 | every scaled feature of the fitted table has mean 0, and so has every mean in the snapshot |
| Preprocessing.FitUnitVariance | src/preprocessing/preprocessor.py:41 | a feature whose column varies has population variance 1 after fitting |
| Preprocessing.LoanPreprocessor.constructor | src/preprocessing/preprocessor.py:13-15 | a new preprocessor has an unfitted scaler and an empty snapshot |
| Preprocessing.LoanPreprocessor.FitTransform | src/preprocessing/preprocessor.py:17-46 | a successful fit stores the scaler learned from the prepared table and the snapshot, and returns the scaled table, whose features have mean 0 and which transform reproduces; a rejected table leaves the scaler unfitted and the snapshot unchanged |
| Preprocessing.LoanPreprocessor.Transform | src/preprocessing/preprocessor.py:48-59 | applies the stored scaler without changing any state; fails when not fitted; keeps the batch's own indicator columns |
| Preprocessing.TransformAfterFit | tests/unit/test_preprocessor.py:100-111 | after a fit, another batch is transformed with the scaler learned from the fitted table, and transforming the same table gives the fitted output again; after a rejected fit every transform fails as not fitted |
| Pipeline.VariabilityGroups | src/fairness/metrics.py:39-40 | on a transformed table a row is unprivileged exactly when its income variability was High and privileged otherwise, so the two groups split the table |

## Left out

- src/api/main.py is not part of this model. It holds the HTTP routes, request schemas and model loading, which are transport and I/O.
- src/models/train.py is not part of this model. It holds model selection, experiment logging and CSV input and output, which are calls into foreign libraries.
- src/config/config.py is not part of this model. It holds constants and directory creation, with no logic to verify.
- Fairness.FairnessMetrics.GetFairnessReport: returns the stored report instead of the rendered text, because the text is three-decimal float formatting. Only the no-metrics message is modelled exactly.
- Fairness.FairnessMetrics.CalculateMetrics: uses the counted group rates, as listed under Findings. As written, the call raises for a group that shows only one class or is empty.
- Fairness.GroupIndices: its own contract states only that indices are in range. The exact membership and order are stated in Fairness.GroupIndicesExact, which keeps evaluation on literal batches cheap.
- Labels outside {0, 1} are not modelled. Labels are booleans.
- A disparate impact that is infinite or NaN is modelled as undefined. The verdict treats both alike, because both fail the source's check.
- Preprocessing.LoanPreprocessor.FitTransform: takes the standard deviations as an argument instead of computing a square root. `DeviationsOf` ties them to the population variance.
- Preprocessing.ScaleFor: replaces only an exactly zero deviation by 1. The scaler's floating-point tolerance for near-zero variance is not modelled.
- Preprocessing.Prepare: rejects a row whose loan amount and denominator are both 0. In the source that ratio is NaN, which the scaler ignores when fitting and keeps when transforming.
- Preprocessing.EmploymentCode: an unmapped status becomes None where the source writes NaN. Pandas dtypes are not modelled.
- Preprocessing.StoreFeatureStats: covers only the eight scaled features. The source also summarises every other numeric column of the processed table: the employment code, the income-variability flag, the purpose indicators and the label.
- Preprocessing.StoreFeatureStats: stores the sample variance where the source stores the sample standard deviation, its square root.
- The order of the indicator columns, and of the columns in general, is not modelled. Columns of the processed table are a record and a set.
- Input columns other than the ten named in Preprocessing.Application are not modelled. Only the label is carried through.
- Integer input columns are modelled as reals. The scaler converts them to floating point.
- All arithmetic is exact. Floating-point rounding and overflow are not modelled.
- The unit test's claim that each scaled feature has standard deviation about 1 is not proved. That test measures the sample standard deviation (ddof = 1), while the scaler divides by the population standard deviation. Preprocessing.FitUnitVariance proves population variance 1 instead.

## Findings

| source | as written | input that shows it | evidently intended | confidence | as-written member | corrected member |
|---|---|---|---|---|---|---|
| src/fairness/metrics.py:71 | `_group_metrics` unpacks the flattened confusion matrix into exactly four counts. The matrix only has four cells when the group's labels and predictions show both classes, so the call raises for an empty group or a one-class group. This makes the empty-group `else 0` fallbacks on lines 76-77 unreachable; those of lines 74-75 are still reached by a two-class group with no actual positive or no actual negative. | labels [1, 1, 0, 0], predictions [1, 0, 0, 0], protected values [0, 0, 1, 1]: the unprivileged group shows only class 0 (Fairness.ExampleRaisesAsWritten) | every group gets its four rates, with the 0 fallbacks for empty denominators (Fairness.ExampleReport) | high, not executed | GroupMetrics.GroupRatesAsWritten | GroupMetrics.GroupRates |
