/**
 * The statistical checks of the validation script: the per-column
 * missingness threshold, the decision taken on the target's normality
 * test, and the column check and grid layout that come before the box
 * plots of the outlier check.
 */
module StatisticalChecks {
  import opened Frames

  datatype CheckError =
    | MissingnessExceeded(threshold: real, flags: seq<Flag>)
    | TargetNotFound(column: string)
    | NotNormal(column: string, p: real)
    | MissingNumericColumns(missing: seq<string>)
    | ZeroDivision

  /** A column whose missing fraction is above the threshold, with that fraction. */
  datatype Flag = Flag(column: string, fraction: real)

  // ----- Missingness -----

  /** The number of missing cells of column `c`. */
  function MissingCount(rows: seq<Row>, c: string): (n: nat)
    requires forall k :: 0 <= k < |rows| ==> c in rows[k]
    ensures n <= |rows|
    ensures n == 0 <==> forall k :: 0 <= k < |rows| ==> rows[k][c].Some?
  {
    if rows == [] then 0
    else
      assert forall k :: 1 <= k < |rows| ==> rows[1..][k - 1] == rows[k];
      (if rows[0][c].None? then 1 else 0) + MissingCount(rows[1..], c)
  }

  /** `data.isnull().mean()` for one column; pandas's mean over no rows is NaN, which is never above a threshold. */
  function MissingFraction(df: DataFrame, c: string): (f: real)
    requires WellFormed(df) && c in df.columns && |df.rows| > 0
    ensures 0.0 <= f <= 1.0
  {
    var m, n := MissingCount(df.rows, c) as real, |df.rows| as real;
    assert m / n <= 1.0 by { QuotientBelow(m, n, 1.0); }
    m / n
  }

  /** For a positive `n`, `m / n` lies above `t` exactly when `m` lies above `t * n`. */
  lemma QuotientBelow(m: real, n: real, t: real)
    requires n > 0.0
    ensures m / n > t <==> m > t * n
  {
    var q := m / n;
    assert q * n == m;
    if q > t {
      assert (q - t) * n > 0.0;
    } else {
      assert (t - q) * n >= 0.0;
    }
  }

  /** Column `c` is reported: there are rows and its missing fraction is strictly above the threshold. */
  predicate AboveThreshold(df: DataFrame, c: string, threshold: real)
    requires WellFormed(df) && c in df.columns
  {
    |df.rows| > 0 && MissingFraction(df, c) > threshold
  }

  /** The reported columns of `cols`, in column order (`missing_percentage[missing_percentage > threshold]`). */
  function Flagged(df: DataFrame, cols: seq<string>, threshold: real): (r: seq<Flag>)
    requires WellFormed(df) && forall c :: c in cols ==> c in df.columns
    ensures forall f :: f in r ==> f.column in cols && AboveThreshold(df, f.column, threshold) && f.fraction == MissingFraction(df, f.column)
    ensures forall c :: c in cols && AboveThreshold(df, c, threshold) ==> Flag(c, MissingFraction(df, c)) in r
  {
    if cols == [] then []
    else
      var rest := Flagged(df, cols[1..], threshold);
      var c := cols[0];
      if AboveThreshold(df, c, threshold) then [Flag(c, MissingFraction(df, c))] + rest else rest
  }

  /** `validate_missingness`: passes when no column is above the threshold, otherwise fails naming every such column. */
  function ValidateMissingness(df: DataFrame, threshold: real): (r: Outcome<CheckError>)
    requires WellFormed(df)
    ensures r.Fail? ==> r.error.MissingnessExceeded? && r.error.threshold == threshold && r.error.flags != []
  {
    var above := Flagged(df, df.columns, threshold);
    if above == [] then Pass else Fail(MissingnessExceeded(threshold, above))
  }

  /** The check fails exactly when some column's missing fraction is strictly above the threshold. */
  lemma MissingnessFailsIff(df: DataFrame, threshold: real)
    requires WellFormed(df)
    ensures ValidateMissingness(df, threshold).Fail? <==> exists c :: c in df.columns && AboveThreshold(df, c, threshold)
    ensures forall c :: c in df.columns && AboveThreshold(df, c, threshold) ==>
              Flag(c, MissingFraction(df, c)) in ValidateMissingness(df, threshold).error.flags
  {
    var above := Flagged(df, df.columns, threshold);
    if above != [] {
      assert above[0] in above;
    }
  }

  /** The comparison is strict: a column missing exactly the threshold fraction passes. */
  lemma AtThresholdPasses(df: DataFrame, c: string, threshold: real)
    requires WellFormed(df) && c in df.columns && |df.rows| > 0
    requires MissingFraction(df, c) == threshold
    ensures !AboveThreshold(df, c, threshold)
  {
  }

  /** Stated without division: for n rows and m missing cells, the fraction is above t exactly when m > t * n. */
  lemma AboveThresholdCrossMultiplied(df: DataFrame, c: string, threshold: real)
    requires WellFormed(df) && c in df.columns && |df.rows| > 0
    ensures AboveThreshold(df, c, threshold) <==> MoreThanShare(MissingCount(df.rows, c), |df.rows|, threshold)
  {
    var m, n := MissingCount(df.rows, c), |df.rows|;
    assert AboveThreshold(df, c, threshold) <==> m as real / n as real > threshold;
    CountQuotientBelow(m, n, threshold);
  }

  /** m is more than the share t of n. */
  predicate MoreThanShare(m: nat, n: nat, t: real) {
    m as real > t * n as real
  }

  lemma CountQuotientBelow(m: nat, n: nat, t: real)
    requires n > 0
    ensures (m as real / n as real > t) <==> MoreThanShare(m, n, t)
  {
    QuotientBelow(m as real, n as real, t);
  }

  /** Raising the threshold never turns a pass into a failure. */
  lemma MissingnessMonotone(df: DataFrame, lower: real, higher: real)
    requires WellFormed(df) && lower <= higher
    requires ValidateMissingness(df, lower).Pass?
    ensures ValidateMissingness(df, higher).Pass?
  {
    MissingnessFailsIff(df, lower);
    MissingnessFailsIff(df, higher);
  }

  /** One missing age in five rows (20%) fails at the default threshold 0.05, naming age, and passes at 0.25. */
  lemma TwentyPercentMissingExample(df: DataFrame)
    requires WellFormed(df) && df.columns == ["age"] && |df.rows| == 5
    requires df.rows[0]["age"].None? && forall k :: 1 <= k < 5 ==> df.rows[k]["age"].Some?
    ensures ValidateMissingness(df, 0.05) == Fail(MissingnessExceeded(0.05, [Flag("age", 0.2)]))
    ensures ValidateMissingness(df, 0.25) == Pass
  {
    assert MissingCount(df.rows[1..], "age") == 0;
    assert MissingCount(df.rows, "age") == 1;
    assert MissingFraction(df, "age") == 0.2;
    assert df.columns[1..] == [];
    assert Flagged(df, df.columns, 0.05) == [Flag("age", 0.2)];
    assert Flagged(df, df.columns, 0.25) == [];
  }

  // ----- Target distribution -----

  /** Significance level of the normality decision. */
  const Alpha: real := 0.05

  /**
   * `validate_target_distribution` with the Shapiro-Wilk p-value of the
   * target column taken as an input: selecting an absent column fails first,
   * then the distribution is accepted only when p is above 0.05.
   */
  function ValidateTargetDistribution(df: DataFrame, target: string, p: real): (r: Outcome<CheckError>)
    ensures target !in df.columns ==> r == Fail(TargetNotFound(target))
    ensures target in df.columns ==> (r.Pass? <==> p > Alpha)
    ensures target in df.columns && r.Fail? ==> r.error == NotNormal(target, p)
  {
    if target !in df.columns then Fail(TargetNotFound(target))
    else if p > Alpha then Pass
    else Fail(NotNormal(target, p))
  }

  // ----- Outlier pre-check and layout -----

  /** Python's `a // b`: rounds the quotient towards negative infinity, for either sign of `b`. */
  function FloorDiv(a: int, b: int): (q: int)
    requires b != 0
    ensures b > 0 ==> q * b <= a < q * b + b
    ensures b < 0 ==> q * b >= a > q * b + b
  {
    if b > 0 then a / b else (-a) / (-b)
  }

  /** The box-plot grid: `nrows` rows of `ncols` columns. */
  datatype Grid = Grid(nrows: int, ncols: int)

  /** `nrows = -(-n // max_cols)` and `ncols = min(n, max_cols)`; a zero `max_cols` divides by zero. */
  function GridLayout(n: nat, maxCols: int): (r: Result<Grid, CheckError>)
    ensures r.Err? <==> maxCols == 0
    ensures r.Err? ==> r.error == ZeroDivision
    ensures r.Ok? && maxCols > 0 ==>
              && r.value.nrows * maxCols >= n
              && (r.value.nrows - 1) * maxCols < n
              && r.value.ncols <= maxCols && r.value.ncols <= n
              && (r.value.ncols == n || r.value.ncols == maxCols)
  {
    if maxCols == 0 then Err(ZeroDivision)
    else Ok(Grid(-FloorDiv(-(n as int), maxCols), if n < maxCols then n else maxCols))
  }

  /** With at least one plot and a positive column limit there is at least one row, and no row more than needed. */
  lemma GridIsTight(n: nat, maxCols: int)
    requires n > 0 && maxCols > 0
    ensures GridLayout(n, maxCols).Ok?
    ensures var g := GridLayout(n, maxCols).value; g.nrows >= 1 && g.ncols >= 1 && g.nrows <= n
  {
    var g := GridLayout(n, maxCols).value;
    if g.nrows > n {
      assert (g.nrows - 1) * maxCols >= g.nrows - 1 by { AtLeastFactor(g.nrows - 1, maxCols); }
    }
  }

  lemma AtLeastFactor(a: int, b: int)
    requires a >= 0 && b >= 1
    ensures a * b >= a
  {
  }

  /** Seven plots at three per row need three rows of three. */
  lemma GridExample()
    ensures GridLayout(7, 3) == Ok(Grid(3, 3))
    ensures GridLayout(2, 3) == Ok(Grid(1, 2))
    ensures GridLayout(6, 3) == Ok(Grid(2, 3))
  {
  }

  /**
   * `validate_no_outliers` up to the drawing: fails listing the requested
   * columns that are absent, in request order; otherwise returns the grid.
   */
  function ValidateNoOutliers(df: DataFrame, numericColumns: seq<string>, maxCols: int): (r: Result<Grid, CheckError>)
    ensures r.Err? && r.error.MissingNumericColumns? ==> r.error.missing == Absent(df.columns, numericColumns)
    ensures (r.Err? && r.error.MissingNumericColumns?) <==> exists c :: c in numericColumns && c !in df.columns
    ensures Absent(df.columns, numericColumns) == [] ==> r == GridLayout(|numericColumns|, maxCols)
  {
    var missing := Absent(df.columns, numericColumns);
    assert missing != [] ==> missing[0] in missing;
    if missing != [] then Err(MissingNumericColumns(missing))
    else GridLayout(|numericColumns|, maxCols)
  }
}
