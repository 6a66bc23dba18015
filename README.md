# Student-performance pipeline: validation, loading, splitting, preprocessing, correlation table

This project models the rule-driven parts of a small analysis pipeline for the
student-performance data set (Portuguese secondary-school records with sex, age,
study time, past failures, going out, weekday and weekend alcohol use, and the
final grade G3). Nearly all numeric work in the pipeline is done by pandas,
pandera, scikit-learn and scipy; what is modelled is the logic the pipeline
itself states, with the library behaviour it depends on written out:

- `SchemaValidation` (scripts/validate.py, `validate_student_data`): the eight
  column rules, the two frame-wide checks (no duplicated row, no all-missing
  row), lazy aggregation of every violation, and an independent statement of
  when a record is valid.
- `StatisticalChecks` (scripts/validate.py): the missingness threshold rule, the
  p-value decision of the target-distribution check, and the column check and
  grid arithmetic of the outlier check.
- `LoadValidData` (src/load_valid_data.py): the existence guard, then the CSV
  extension guard, then projection onto the eight student columns.
- `SplitData` (src/split_data.py): the target and size guards, dropping the
  target from the features, and scikit-learn's train/test partition for a
  fractional size over a permutation of the row positions.
- `Preprocessor` (src/preprocessor.py): the dtype partition into scaled and
  one-hot encoded features, the output width under `drop="if_binary"`, and the
  relabelling of the transformed matrix as a frame.
- `CorrelationPlot` (src/plot_utils.py, `pearson_corr_plot`): the reserved-name
  guard, the melt of the correlation matrix, the `var1 <= var2` filter and the
  `abs_corr` column.
- `Frames` and `PyStrings` are shared: a pandas frame as columns, dtypes, an
  index and rows of `map<string, Option<Value>>` (a `None` cell is a missing
  value), and Python's code-point string order and `str.endswith`.

Everything is pure: the source updates nothing in place, so the model is
datatypes, functions and lemmas.

Where a docstring and the code differ, the model follows the code:

- The docstring of `split_data` (src/split_data.py:26-28) says `test_size` must
  lie between 0 and 1; the guard at lines 34-35 only refuses values below 0 or
  above 1, so 0.0 and 1.0 pass it. scikit-learn then refuses both floats,
  because a fractional size must lie strictly between 0 and 1. Both steps are
  modelled (`SplitData.EndpointsPassGuardOnly`). An integer `test_size` of 1
  also passes the guard, but the library reads an integer as an absolute count;
  that form is not modelled (see "Left out").
- The docstring of `validate_no_outliers` (scripts/validate.py:138-141) says the
  check raises when the data contains none of the requested columns; the code
  at lines 146-148 raises when any one of them is absent.

Two further decisions follow the code where it says nothing explicitly:

- The `sex` rule (scripts/validate.py:30) states no `nullable=`, so pandera's
  default (not nullable) applies to it as to the integer rules.
- The target-distribution check (scripts/validate.py:107-110) raises when
  p <= 0.05, as its docstring at lines 100-103 says; it does not merely report.

## Model

| member | source | states |
|---|---|---|
| SchemaValidation.ValidateStudentData | scripts/validate.py:28-46 | The frame comes back unchanged when there is no violation; otherwise the error lists every violation, and a duplicated or all-missing row always causes rejection |
| SchemaValidation.StudentFailures | scripts/validate.py:28-46 | The aggregated lazy failure list: empty exactly when the column rules report nothing and there is neither a duplicated nor an all-missing row; it holds the duplicate-row failure exactly when a row is duplicated and the empty-row failure exactly when a row is all missing |
| SchemaValidation.FrameWideNotInSchemaFailures | scripts/validate.py:30-41 | The column rules never produce a duplicate-row or empty-row failure, so those two come only from the frame-wide checks |
| SchemaValidation.HasDuplicateRows | scripts/validate.py:40 | `df.duplicated().any()`: two row positions hold equal rows; SchemaValidation.ValidateStudentData and SchemaValidation.ValidateAcceptsIff state that such a frame is always rejected |
| SchemaValidation.HasEmptyRow | scripts/validate.py:41 | `df.isna().all(axis=1).any()`: some row is missing in every column; SchemaValidation.ValidateStudentData and SchemaValidation.ValidateAcceptsIff state that such a frame is always rejected |
| SchemaValidation.ValidateAcceptsIff | scripts/validate.py:28-46 | The frame is accepted exactly when the eight columns have their declared dtypes, every record has sex M or F and every integer field present and inside its inclusive range, no two rows are equal and no row is missing in every column |
| SchemaValidation.SchemaPassesIff | scripts/validate.py:30-37 | The column rules pass exactly when the dtypes are as declared and every record conforms to the independent record statement |
| SchemaValidation.StudentRulesIff | scripts/validate.py:30-37 | The eight rules hold column by column exactly when the dtypes are as declared and every record conforms |
| SchemaValidation.SchemaIffRules | scripts/validate.py:28-38 | A list of non-nullable isin/between rules reports nothing exactly when every column conforms to its rule |
| SchemaValidation.RuleIff | scripts/validate.py:30-37 | One rule reports nothing exactly when its column is present with the declared dtype and every value is present and passes the check |
| SchemaValidation.Satisfies | scripts/validate.py:30-37 | `pa.Check.isin` accepts exactly a string in the allowed list, and `pa.Check.between` a number inside the inclusive bounds; SchemaValidation.RuleIff and SchemaValidation.StudentRulesIff state the rules through it |
| SchemaValidation.CellOk | scripts/validate.py:30-37 | A missing cell passes only a nullable rule, and none of the eight is nullable; a present cell passes when its check does; SchemaValidation.RuleIff states a rule's outcome through it |
| SchemaValidation.DtypeOk | scripts/validate.py:30-37 | `pa.Column(int)` demands int64 and `pa.Column(str)` object dtype holding only strings; SchemaValidation.ColumnFailures reports a wrong dtype and SchemaValidation.RuleIff requires the right one |
| SchemaValidation.CellFailures | scripts/validate.py:30-37 | The cell failures of one rule are empty exactly when every cell passes, contain every failing cell's failure, and all name the rule's column |
| SchemaValidation.ColumnFailures | scripts/validate.py:30-37 | One rule's failures are empty exactly when its column is present, its dtype is the declared one and every cell passes; an absent column gives exactly one missing-column failure, a wrong dtype is reported, and every failure names the rule's column |
| SchemaValidation.SchemaFailures | scripts/validate.py:28-38 | The lazy failures of a rule list are empty exactly when every rule's failures are, and contain every failure of every rule |
| SchemaValidation.StudentSchemaShape | scripts/validate.py:30-37 | Every rule of the schema is on one of the eight columns, is not nullable, and uses between exactly on integer fields |
| SchemaValidation.ColumnFailuresReportCells | scripts/validate.py:46 | Each cell failure of a present column is part of that column's failures, whatever its dtype |
| SchemaValidation.LazyReportsEveryCellFailure | scripts/validate.py:46 | A failure of any rule in any row is part of the one aggregated error |
| SchemaValidation.BothViolationsReported | scripts/validate.py:30-31 | A record with age 23 and sex "X" produces one error that contains both the sex failure and the age failure |
| SchemaValidation.OnlySchemaColumnsJudged | scripts/validate.py:28-38 | Every column failure names one of the eight schema columns |
| SchemaValidation.SchemaFailuresConcern | scripts/validate.py:28-38 | Every failure of a rule list names the column of one of its rules |
| SchemaValidation.ColumnsOutsideSchemaIgnored | scripts/validate.py:28-38 | Two frames that agree on the eight schema columns get the same column failures, whatever other columns (such as G1 and G2) they hold |
| SchemaValidation.SchemaFailuresAgree | scripts/validate.py:28-38 | Frames that agree on the columns of a list of rules get the same failures for that list |
| SchemaValidation.ColumnFailuresAgree | scripts/validate.py:30-37 | Frames that agree on a column get the same failures for a rule on it |
| SchemaValidation.CellFailuresAgree | scripts/validate.py:30-37 | Rows that agree on a column's cells give the same cell failures for a rule on it |
| StatisticalChecks.MissingCount | scripts/validate.py:68 | The count of missing cells is at most the row count, and it is zero exactly when every cell of the column is present |
| StatisticalChecks.MissingFraction | scripts/validate.py:68 | The missing fraction of a column lies between 0 and 1 |
| StatisticalChecks.Flagged | scripts/validate.py:69 | Every flagged column is strictly above the threshold and carries its fraction, and every column strictly above the threshold is flagged |
| StatisticalChecks.AboveThreshold | scripts/validate.py:69 | The mask `missing_percentage > threshold`: a column is above the threshold when there are rows and its missing fraction is strictly greater (an empty frame's NaN mean compares false); StatisticalChecks.AboveThresholdCrossMultiplied states it as m > threshold * n |
| StatisticalChecks.ValidateMissingness | scripts/validate.py:68-74 | A failure names the threshold and at least one flagged column |
| StatisticalChecks.MissingnessFailsIff | scripts/validate.py:68-74 | The check fails exactly when some column's missing fraction is strictly above the threshold, and the error lists every such column with its fraction |
| StatisticalChecks.AtThresholdPasses | scripts/validate.py:69 | A column missing exactly the threshold fraction is not flagged |
| StatisticalChecks.AboveThresholdCrossMultiplied | scripts/validate.py:68-69 | With m missing cells in n rows, the column is flagged exactly when m > threshold * n |
| StatisticalChecks.QuotientBelow | scripts/validate.py:69 | For a positive n, m / n > t exactly when m > t * n |
| StatisticalChecks.MissingnessMonotone | scripts/validate.py:69 | Raising the threshold never turns a pass into a failure |
| StatisticalChecks.TwentyPercentMissingExample | scripts/validate.py:68-74 | One missing age in five rows fails at threshold 0.05 naming age with fraction 0.2, and passes at 0.25 |
| StatisticalChecks.ValidateTargetDistribution | scripts/validate.py:106-110 | Selecting an absent target fails first; otherwise the check passes exactly when p > 0.05 and fails reporting the column and p |
| StatisticalChecks.FloorDiv | scripts/validate.py:152 | Python's floor division: for b > 0, q * b <= a < q * b + b; for b < 0, q * b >= a > q * b + b |
| StatisticalChecks.GridLayout | scripts/validate.py:151-153 | A zero column limit divides by zero; for a positive limit, nrows * max_cols >= n > (nrows - 1) * max_cols and ncols = min(n, max_cols) |
| StatisticalChecks.GridIsTight | scripts/validate.py:151-153 | With at least one plot and a positive limit, the grid has at least one row and column and no more rows than plots |
| StatisticalChecks.GridExample | scripts/validate.py:151-153 | Seven plots at three per row give a 3 by 3 grid, two give 1 by 2, six give 2 by 3 |
| StatisticalChecks.ValidateNoOutliers | scripts/validate.py:146-153 | The reported missing columns are exactly the requested names absent from the data, in request order; the error happens exactly when one is absent; otherwise the result is the grid layout |
| Frames.Absent | scripts/validate.py:146 | The list holds exactly the requested names that are not columns, in request order |
| Frames.AbsentConcat | scripts/validate.py:146 | The absent names of a concatenation are the absent names of each part, in order |
| LoadValidData.Load | src/load_valid_data.py:25-33 | A path that is not a file is not found; an existing file not ending in ".csv" is refused; an existing ".csv" file lacking some of the eight columns gives a KeyError naming exactly the absent ones; otherwise the result has exactly the eight columns in order, the same index and row count, and the same dtypes and cells in those columns |
| LoadValidData.MissingNonCsvIsNotFound | src/load_valid_data.py:25-29 | Existence is checked first, so a missing ".txt" path is reported as not found |
| LoadValidData.ExistingTextFileIsNotCsv | src/load_valid_data.py:28-29 | An existing ".txt" file is refused as not CSV |
| LoadValidData.OtherColumnsDropped | src/load_valid_data.py:32-33 | A column outside the eight is in neither the result's columns nor any of its rows |
| LoadValidData.StudentColumnsAreSchemaColumns | src/load_valid_data.py:32 | The loader's column list equals the list of columns the student schema constrains (scripts/validate.py:30-37), in order, and every schema rule is on a loaded column |
| Frames.Project | src/load_valid_data.py:33 | Selecting columns keeps the index, the row count, the dtypes and every cell of the selected columns, and nothing else |
| PyStrings.EndsWithExamples | src/load_valid_data.py:28 | "students-math.csv" ends with ".csv"; "students-math.txt" and "csv" do not |
| PyStrings.EndsWith | src/load_valid_data.py:28 | `str.endswith`: the suffix is no longer than the string and equals its tail; PyStrings.EndsWithExamples and LoadValidData.ExistingTextFileIsNotCsv state its use on file names |
| SplitData.CheckArguments | src/split_data.py:31-35 | An absent target fails first; otherwise the guard passes exactly when 0 <= test_size <= 1 |
| SplitData.ShuffleSplitSizes | src/split_data.py:40 | A size outside (0, 1) is invalid; otherwise the split exists exactly when ceil(test_size * n) < n, and then the two part sizes add up to n with a nonempty training part |
| SplitData.TestCountBounds | src/split_data.py:40 | The test count is the least whole number at or above test_size * n, between 0 and n, and positive when there are rows |
| SplitData.TestCount | src/split_data.py:40 | The library's test count `ceil(test_size * n_samples)`; SplitData.TestCountBounds states its bounds |
| SplitData.Ceil | src/split_data.py:40 | The ceiling is the integer r with r - 1 < x <= r |
| SplitData.SplitTrainTest | src/split_data.py:31-40 | The target check comes before the size check; otherwise the split exists exactly when the library's sizes exist, the parts' sizes add up to the row count, both feature parts have every column but the target in order, both target parts are the target column, and X and y of each part carry the same index |
| SplitData.TestRowFromData | src/split_data.py:37-40 | Test row k is data row perm[k]: the same index label in X and y, the target value of that row, and every feature cell of that row |
| SplitData.TrainRowFromData | src/split_data.py:37-40 | For k from n_test on, training row k - n_test is data row perm[k], in the same sense |
| SplitData.SplitIsCut | src/split_data.py:40 | A split is the permutation cut at n_test: the test part is taken at the first n_test positions and the training part at the rest |
| SplitData.Features | src/split_data.py:37-40 | The feature rows at given positions: every column but the target, one row per position, carrying that position's index label |
| SplitData.Targets | src/split_data.py:38-40 | The target values at given positions: a series named after the target, one value per position, carrying that position's index label |
| Frames.TakeValues | src/split_data.py:40 | `iloc` on a series: value and index label k are those at position pos[k] |
| SplitData.RowRestored | src/split_data.py:37-38 | A feature row with its target value put back is the whole data row |
| SplitData.EveryRowOnce | src/split_data.py:40 | Every row position lands in exactly one of the two parts, exactly once |
| SplitData.TargetCheckedFirst | src/split_data.py:31-35 | An absent target with a bad size reports the target |
| SplitData.EndpointsPassGuardOnly | src/split_data.py:34-35 | The fractions 0.0 and 1.0 pass the guard and are then refused by the library; 1.5 and -0.5 are refused by the guard |
| SplitData.FiveRowsSplitThreeTwo | tests/test_split_data.py:18-29 | Five rows at test_size 0.4 give three training and two test rows, for every permutation |
| SplitData.FeatureColumnsExample | tests/test_split_data.py:32-36 | Columns A, B and target give feature parts with exactly A and B |
| SplitData.PermutationInRange | src/split_data.py:40 | Every entry of a permutation of 0 .. n-1 is below n |
| Frames.Without | src/split_data.py:37 | Dropping a column keeps exactly the other columns, and keeps them distinct |
| Frames.WithoutSplice | src/split_data.py:37 | Dropping the column at position k leaves the columns before it followed by those after it |
| Frames.TakeRows | src/split_data.py:40 | The rows at the selected positions, with their index labels, in that order |
| Frames.ColumnOf | src/split_data.py:38 | The target series has the frame's index and the column's cells |
| Preprocessor.CreatePreprocessor | src/preprocessor.py:20-28 | The encoded features are exactly the object columns and the scaled features exactly the int64 and float64 columns, each in column order and without repeats |
| Preprocessor.PartitionIsDisjoint | src/preprocessor.py:20-21 | No column is both scaled and encoded, and a column of any other dtype is neither |
| Preprocessor.PartitionCoversAtMostColumns | src/preprocessor.py:20-21 | The two feature lists together are no longer than the training columns |
| Frames.SelectDtypes | src/preprocessor.py:20-21 | The selected columns are exactly those whose dtype is included, in column order |
| Frames.SubsequenceDistinct | src/preprocessor.py:20-21 | A selection from distinct columns is distinct |
| Preprocessor.Categories | src/preprocessor.py:26 | The categories are exactly the distinct cells of the column: every cell is one, every category occurs in some row, and there is one when there are rows |
| Preprocessor.FixtureCategories | tests/test_preprocessor.py:13-29 | The fixture's sex column, M, F, M, F, has two categories |
| Preprocessor.CategoriesOfTwo | src/preprocessor.py:26 | A column holding exactly two different values has two categories |
| Preprocessor.EncodedWidth | src/preprocessor.py:26 | A feature with k categories gives at most k columns, one fewer exactly when k is 2, and at least one when k is positive |
| Preprocessor.CategoricalWidth | src/preprocessor.py:26 | The encoder's columns for the categorical features, feature by feature; Preprocessor.CategoricalWidthCounts states it as the total categories less the binary features, and Preprocessor.CategoricalWidthAtLeast as at least one column per feature when there are rows |
| Preprocessor.CategoricalWidthCounts | src/preprocessor.py:26 | The encoder's width plus the number of binary features is the total number of categories |
| Preprocessor.CategoricalWidthAtLeast | src/preprocessor.py:26 | With training rows, every encoded feature contributes at least one column |
| Preprocessor.OutputWidthRule | src/preprocessor.py:24-28 | The output width is the scaled columns plus all categories less one per binary feature, and with rows it is at least the number of features used |
| Preprocessor.OutputWidth | src/preprocessor.py:24-28 | The width of the fitted transformer's output for a training frame; Preprocessor.OutputWidthRule states it in terms of the category counts and Preprocessor.SexAgeStudytimeFixture gives 3 on the test fixture |
| Preprocessor.SexAgeStudytimeFixture | tests/test_preprocessor.py:13-29 | The sex/age/studytime frame scales age and studytime, encodes sex, and gives 3 output columns |
| Preprocessor.TransformToDataFrame | src/preprocessor.py:50-54 | The frame is built exactly when the matrix shape matches the index and the labels; it keeps the index, is labelled with the feature names, and holds the matrix values |
| Preprocessor.LabelRow | src/preprocessor.py:50-52 | A transformed row puts value j under label j and has no other labels |
| Preprocessor.TransformRoundTrip | src/preprocessor.py:50-54 | Reading the frame's values back gives the transformed matrix |
| Preprocessor.FittedOutputIsAccepted | src/preprocessor.py:24-28 | A transform of the training rows with one label per output column is always accepted and keeps the training index |
| CorrelationPlot.NumericColumns | src/plot_utils.py:105 | Exactly the numeric columns, in column order, without repeats |
| CorrelationPlot.PearsonCorrTable | src/plot_utils.py:103-110 | The frame is refused exactly when var1 or var2 is a column (reported as a reserved name, checked first) or a numeric column is named correlation (the melt's value name clashes); otherwise every row pairs two numeric columns with var1 <= var2, carries their coefficient, and has abs_corr equal to its absolute value |
| CorrelationPlot.CorrelationColumnClash | src/plot_utils.py:105-107 | A float column named correlation is refused by the melt; the same name on a text column is not, because only numeric columns are melted |
| CorrelationPlot.MeltColumn | src/plot_utils.py:106-107 | One matrix column melts into one row per row label, in order |
| CorrelationPlot.MeltRows | src/plot_utils.py:105-107 | Every melted row pairs a row label with a column label and carries their coefficient |
| CorrelationPlot.Melt | src/plot_utils.py:105-107 | `reset_index(names="var1").melt(id_vars="var1", var_name="var2")`: one block per matrix column; CorrelationPlot.MeltRows, CorrelationPlot.MeltSize and CorrelationPlot.MeltAt state its rows, its size and the row at each position |
| CorrelationPlot.MeltSize | src/plot_utils.py:105-107 | The melt has one row per (row label, column label) pair |
| CorrelationPlot.MeltAt | src/plot_utils.py:105-107 | Row j*n + i of the melt is matrix entry (i, j): the column label varies slowest |
| CorrelationPlot.MeltHead | src/plot_utils.py:105-107 | The first block of the melt is the first matrix column |
| CorrelationPlot.MeltShift | src/plot_utils.py:105-107 | Past the first block, the melt continues with the melt of the remaining columns |
| CorrelationPlot.CountMelt | src/plot_utils.py:105-107 | The melt of distinct labels holds each ordered pair of labels exactly once |
| CorrelationPlot.CountMeltColumn | src/plot_utils.py:106-107 | A melted column holds the pair (a, b) once when b is that column and a a row label, and never otherwise |
| CorrelationPlot.Keep | src/plot_utils.py:109 | A row is kept exactly when var1 <= var2 in Python's string order |
| CorrelationPlot.KeepConcat | src/plot_utils.py:109 | Filtering a concatenation filters each part |
| CorrelationPlot.CountKeep | src/plot_utils.py:109 | The filter keeps every row of a pair with a <= b and none of any other pair |
| CorrelationPlot.WithAbs | src/plot_utils.py:110 | One output row per input row, with abs_corr the absolute value of the correlation |
| CorrelationPlot.Pairs | src/plot_utils.py:105-109 | The melted matrix of the numeric columns, filtered to var1 <= var2; CorrelationPlot.EachUnorderedPairOnce, CorrelationPlot.OnlyNumericPairs and CorrelationPlot.TableSize state its rows and their number |
| CorrelationPlot.Abs | src/plot_utils.py:110 | The absolute value is non-negative and equals x or -x |
| CorrelationPlot.TableRowsArePairs | src/plot_utils.py:108-110 | Row k of the table is kept pair k with its absolute correlation beside it |
| CorrelationPlot.EachUnorderedPairOnce | src/plot_utils.py:108-109 | For numeric a and b, the pair (a, b) appears once when a <= b and never otherwise; each diagonal pair appears once; of (a, b) and (b, a), exactly one appears |
| CorrelationPlot.OnlyNumericPairs | src/plot_utils.py:105 | A pair with a non-numeric name never appears |
| CorrelationPlot.TableSize | src/plot_utils.py:105-109 | For n numeric columns the melt has n*n rows and the table n(n+1)/2 |
| CorrelationPlot.KeptCountTriangle | src/plot_utils.py:109 | Of the n*n ordered pairs of n distinct labels, n(n+1)/2 satisfy var1 <= var2 |
| CorrelationPlot.KeepMeltSize | src/plot_utils.py:109 | The kept rows of the melt are counted column by column |
| CorrelationPlot.KeepMeltColumnSize | src/plot_utils.py:109 | A kept melted column has one row per row label <= the column label |
| CorrelationPlot.KeptCountCons | src/plot_utils.py:109 | A new row label adds one kept row for each column label it is <= |
| CorrelationPlot.LeGeSplit | src/plot_utils.py:109 | Against other labels, exactly one of s[k] <= x and x <= s[k] holds |
| CorrelationPlot.TimesIsProduct | src/plot_utils.py:105-107 | Repeated addition gives the product |
| CorrelationPlot.TimesBelow | src/plot_utils.py:105-107 | Row i of block j lies before the end of block m when j < m |
| CorrelationPlot.FourColumnTable | tests/test_plot_utils.py:84-98 | Four float columns give a table of ten rows |
| CorrelationPlot.ReservedColumnsRefused | tests/test_plot_utils.py:77-83 | A frame with columns var1, var2, var3 and target is refused |
| PyStrings.LexLeReflexive | src/plot_utils.py:109 | Every string is <= itself |
| PyStrings.LexLe | src/plot_utils.py:109 | Python's `<=` on strings, by code point from the left with a prefix first; the PyStrings.LexLe lemmas below state that it is a total order |
| PyStrings.LexLeTotal | src/plot_utils.py:109 | Of any two strings, one is <= the other |
| PyStrings.LexLeAntisymmetric | src/plot_utils.py:109 | Two strings each <= the other are equal |
| PyStrings.LexLeTransitive | src/plot_utils.py:109 | The string order is transitive |
| PyStrings.LexLeExactlyOne | src/plot_utils.py:109 | For distinct strings, exactly one of a <= b and b <= a holds |
| PyStrings.LexLeExamples | src/plot_utils.py:109 | Code-point order: "Dalc" sorts before "age", a prefix "G" before "G3", "G1" before "G3", and "x10" before "x2" |

## Left out

- File-system and parsing: whether a path names a file is an input to `LoadValidData.Load`, and the table `pd.read_csv` produces is an input. CSV parsing with the ';' delimiter is not modelled.
- All plotting: the heatmap, histogram and box plots of scripts/validate.py (including the drawing loop at lines 155-167), the Altair chart encoding in src/plot_utils.py, and `distribution_plot` and `density_plots`.
- StatisticalChecks.ValidateTargetDistribution: the Shapiro-Wilk statistic is floating-point library numerics, so the p-value is an input and only the decision at 0.05 is modelled.
- CorrelationPlot.PearsonCorrTable: the Pearson coefficients are an input function `corr(a, b)`. Floating point, NaN coefficients and the `isinstance` TypeError guard (a non-frame value cannot be passed to a typed function) are not modelled.
- SplitData.ShuffleSplitSizes: the test count is the ceiling of the exact product `test_size * n`. scikit-learn computes that product in double precision first, so where the double lands just above a whole number it gives one more test row: 100 rows at 0.07 give the double 7.000000000000001 and 8 test rows there, but 7 here.
- SplitData.TestCount: the ceiling of the exact product `test_size * n`; the double-precision difference is the one described for `SplitData.ShuffleSplitSizes`.
- SplitData.TestCountBounds: states its bounds for the exact product, so it inherits the rounding difference of `SplitData.ShuffleSplitSizes`.
- SplitData.SplitTrainTest: the part sizes come from `SplitData.ShuffleSplitSizes`, so the split inherits its rounding difference (one more test row when the double product lands just above a whole number). The random number generator behind `random_state` is an input permutation. The integer `test_size` form of the library and its absolute counts are not modelled, because the source passes a fraction.
- Preprocessor.TransformToDataFrame: the feature names are required to be distinct, as `verbose_feature_names_out=True` makes them. The exact text of those names (`standardscaler__age`, `onehotencoder__sex_M`, ...) and the scaler's means and variances (floating point) are not modelled.
- Preprocessor.OutputWidth: the encoded width is stated from the training categories. Fitting and transforming, and unknown categories at transform time, are not modelled; a missing value in a categorical column counts as a category of its own, because the categories are a set of cells.
- StatisticalChecks.MissingFraction: pandas's mean over zero rows is NaN; the model says a column of an empty frame is never above the threshold, which is how NaN compares.
- StatisticalChecks.GridLayout: the `plt.subplots` call is not modelled; only the arithmetic of lines 151-153 is. So an empty list of requested columns gives a 0 by 0 grid here, where `plt.subplots(nrows=0, ...)` at scripts/validate.py:155 raises ValueError, and a negative column limit is not refused as matplotlib would refuse it.
- SchemaValidation.ValidateStudentData: pandera's coercion, its error-message text and its exact failure-case table layout are not modelled; failures are a list of (column, check, index, value) entries in rule order.
- CorrelationPlot.MeltSize: states the size as `Times(|outer|, |inner|)`, repeated addition, and `CorrelationPlot.TimesIsProduct` proves it equal to the product.
- The older `load_data` in scripts/validate.py (lines 12-20), which returns a string instead of raising; the loader in src/load_valid_data.py supersedes it.
- scripts/eda.py: its pair filter repeats the one in src/plot_utils.py, which is modelled once.
- scripts/split_preprocess.py, scripts/fit_model.py, scripts/evaluate_model.py, scripts/download_data.py, src/download_data.py and scripts/fit_student_performance.py are orchestration, model fitting, floating-point metrics, network and file I/O, or not valid Python, and are not part of this model.
- Command-line wiring with click is not modelled.
