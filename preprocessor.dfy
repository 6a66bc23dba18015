/**
 * `create_preprocessor` and `transform_to_dataframe`: the split of the
 * training features by dtype into the columns the standard scaler sees and
 * the columns the one-hot encoder sees, the number of output columns the
 * fitted transformer produces under `drop="if_binary"`, and the relabelling
 * of the transformed matrix as a data frame. The scaler's statistics are
 * floating point and are not modelled; the transformed values are an input.
 */
module Preprocessor {
  import opened Frames

  /** The dtypes routed to the one-hot encoder (`include=["object"]`). */
  const CategoricalKinds: set<DType> := {Object}

  /** The dtypes routed to the standard scaler (`include=["int64", "float64"]`). */
  const NumericKinds: set<DType> := {Int64, Float64}

  /** The column transformer: the scaler's columns first, then the encoder's, as `make_column_transformer` lists them. */
  datatype ColumnTransformer = ColumnTransformer(numeric: seq<string>, categorical: seq<string>)

  /** `create_preprocessor(X_train)`. */
  function CreatePreprocessor(xTrain: DataFrame): (p: ColumnTransformer)
    requires WellFormed(xTrain)
    ensures forall c :: c in p.categorical <==> c in xTrain.columns && xTrain.dtypes[c] == Object
    ensures forall c :: c in p.numeric <==> c in xTrain.columns && xTrain.dtypes[c] in {Int64, Float64}
    ensures IsSubsequence(p.categorical, xTrain.columns) && IsSubsequence(p.numeric, xTrain.columns)
    ensures Distinct(p.categorical) && Distinct(p.numeric)
  {
    var categorical := SelectDtypes(xTrain.columns, xTrain.dtypes, CategoricalKinds);
    var numeric := SelectDtypes(xTrain.columns, xTrain.dtypes, NumericKinds);
    SubsequenceDistinct(categorical, xTrain.columns);
    SubsequenceDistinct(numeric, xTrain.columns);
    ColumnTransformer(numeric, categorical)
  }

  /** No column goes to both transformers, and a column of any other dtype (int32, bool, category, ...) goes to neither. */
  lemma PartitionIsDisjoint(xTrain: DataFrame, c: string)
    requires WellFormed(xTrain)
    ensures !(c in CreatePreprocessor(xTrain).numeric && c in CreatePreprocessor(xTrain).categorical)
    ensures c in xTrain.columns && xTrain.dtypes[c] !in {Object, Int64, Float64} ==>
              c !in CreatePreprocessor(xTrain).numeric && c !in CreatePreprocessor(xTrain).categorical
  {
  }

  /** Every column the transformer uses is a training column, and it uses each at most once. */
  lemma {:induction false} PartitionCoversAtMostColumns(xTrain: DataFrame)
    requires WellFormed(xTrain)
    ensures |CreatePreprocessor(xTrain).numeric| + |CreatePreprocessor(xTrain).categorical| <= |xTrain.columns|
  {
    var p := CreatePreprocessor(xTrain);
    SplitBound(xTrain.columns, xTrain.dtypes);
  }

  lemma {:induction false} SplitBound(cols: seq<string>, dtypes: map<string, DType>)
    requires forall c :: c in cols ==> c in dtypes
    ensures |SelectDtypes(cols, dtypes, NumericKinds)| + |SelectDtypes(cols, dtypes, CategoricalKinds)| <= |cols|
  {
    if cols != [] {
      SplitBound(cols[1..], dtypes);
    }
  }

  // ----- Output width of the fitted transformer -----

  /** The distinct values the encoder learns for column `c`; a missing value is a category of its own. */
  function Categories(df: DataFrame, c: string): (cats: set<Cell>)
    requires WellFormed(df) && c in df.columns
    ensures forall k :: 0 <= k < |df.rows| ==> df.rows[k][c] in cats
    ensures forall x :: x in cats ==> exists k :: 0 <= k < |df.rows| && df.rows[k][c] == x
    ensures |df.rows| > 0 ==> |cats| > 0
  {
    var cats := set k | 0 <= k < |df.rows| :: df.rows[k][c];
    assert |df.rows| > 0 ==> df.rows[0][c] in cats;
    cats
  }

  /** Columns the encoder emits for a feature with k categories: `drop="if_binary"` removes one exactly when k is two. */
  function EncodedWidth(k: nat): (w: nat)
    ensures w <= k
    ensures w < k <==> k == 2
    ensures k > 0 ==> w > 0
  {
    if k == 2 then 1 else k
  }

  /** The encoder's columns for the categorical features, feature by feature. */
  function CategoricalWidth(df: DataFrame, cols: seq<string>): nat
    requires WellFormed(df) && forall c :: c in cols ==> c in df.columns
  {
    if cols == [] then 0 else EncodedWidth(|Categories(df, cols[0])|) + CategoricalWidth(df, cols[1..])
  }

  /** Columns of `preprocessor.fit_transform(X_train)`: one per scaled feature and the encoder's columns. */
  function OutputWidth(xTrain: DataFrame): nat
    requires WellFormed(xTrain)
  {
    var p := CreatePreprocessor(xTrain);
    |p.numeric| + CategoricalWidth(xTrain, p.categorical)
  }

  /** The number of categories summed over `cols`. */
  function TotalCategories(df: DataFrame, cols: seq<string>): nat
    requires WellFormed(df) && forall c :: c in cols ==> c in df.columns
  {
    if cols == [] then 0 else |Categories(df, cols[0])| + TotalCategories(df, cols[1..])
  }

  /** The number of features in `cols` with exactly two categories. */
  function BinaryCount(df: DataFrame, cols: seq<string>): nat
    requires WellFormed(df) && forall c :: c in cols ==> c in df.columns
  {
    if cols == [] then 0 else (if |Categories(df, cols[0])| == 2 then 1 else 0) + BinaryCount(df, cols[1..])
  }

  /** The encoder emits one column per category, less one for every binary feature. */
  lemma {:induction false} CategoricalWidthCounts(df: DataFrame, cols: seq<string>)
    requires WellFormed(df) && forall c :: c in cols ==> c in df.columns
    ensures CategoricalWidth(df, cols) + BinaryCount(df, cols) == TotalCategories(df, cols)
  {
    if cols != [] {
      CategoricalWidthCounts(df, cols[1..]);
    }
  }

  /** With at least one training row, every feature contributes at least one column. */
  lemma {:induction false} CategoricalWidthAtLeast(df: DataFrame, cols: seq<string>)
    requires WellFormed(df) && forall c :: c in cols ==> c in df.columns
    requires |df.rows| > 0
    ensures CategoricalWidth(df, cols) >= |cols|
  {
    if cols != [] {
      CategoricalWidthAtLeast(df, cols[1..]);
    }
  }

  /** The output width is the scaled columns plus every category less one per binary feature, and is at least the number of features used. */
  lemma OutputWidthRule(xTrain: DataFrame)
    requires WellFormed(xTrain)
    ensures var p := CreatePreprocessor(xTrain);
            OutputWidth(xTrain) == |p.numeric| + TotalCategories(xTrain, p.categorical) - BinaryCount(xTrain, p.categorical)
    ensures |xTrain.rows| > 0 ==>
              OutputWidth(xTrain) >= |CreatePreprocessor(xTrain).numeric| + |CreatePreprocessor(xTrain).categorical|
  {
    var p := CreatePreprocessor(xTrain);
    CategoricalWidthCounts(xTrain, p.categorical);
    if |xTrain.rows| > 0 {
      CategoricalWidthAtLeast(xTrain, p.categorical);
    }
  }

  /**
   * The fixture: sex M, F, M, F (object) and integer age and studytime.
   * The scaler takes age and studytime, the encoder takes sex, whose two
   * categories become one column, so the output has three columns.
   */
  lemma SexAgeStudytimeFixture(xTrain: DataFrame)
    requires WellFormed(xTrain) && xTrain.columns == ["sex", "age", "studytime"] && |xTrain.rows| == 4
    requires xTrain.dtypes == map["sex" := Object, "age" := Int64, "studytime" := Int64]
    requires xTrain.rows[0]["sex"] == Some(Str("M")) && xTrain.rows[1]["sex"] == Some(Str("F"))
    requires xTrain.rows[2]["sex"] == Some(Str("M")) && xTrain.rows[3]["sex"] == Some(Str("F"))
    ensures CreatePreprocessor(xTrain) == ColumnTransformer(["age", "studytime"], ["sex"])
    ensures OutputWidth(xTrain) == 3 > 0
  {
    FixturePartition(xTrain.columns, xTrain.dtypes);
    FixtureCategories(xTrain);
    assert ["sex"][1..] == [];
    assert CategoricalWidth(xTrain, ["sex"]) == 1;
  }

  lemma FixturePartition(cols: seq<string>, dtypes: map<string, DType>)
    requires cols == ["sex", "age", "studytime"]
    requires dtypes == map["sex" := Object, "age" := Int64, "studytime" := Int64]
    ensures SelectDtypes(cols, dtypes, CategoricalKinds) == ["sex"]
    ensures SelectDtypes(cols, dtypes, NumericKinds) == ["age", "studytime"]
  {
    assert cols[1..] == ["age", "studytime"] && cols[1..][1..] == ["studytime"] && cols[1..][1..][1..] == [];
    assert SelectDtypes(cols[1..][1..], dtypes, CategoricalKinds) == [];
    assert SelectDtypes(cols[1..], dtypes, CategoricalKinds) == [];
    assert SelectDtypes(cols[1..][1..], dtypes, NumericKinds) == ["studytime"];
    assert SelectDtypes(cols[1..], dtypes, NumericKinds) == ["age", "studytime"];
  }

  lemma FixtureCategories(xTrain: DataFrame)
    requires WellFormed(xTrain) && "sex" in xTrain.columns && |xTrain.rows| == 4
    requires xTrain.rows[0]["sex"] == Some(Str("M")) && xTrain.rows[1]["sex"] == Some(Str("F"))
    requires xTrain.rows[2]["sex"] == Some(Str("M")) && xTrain.rows[3]["sex"] == Some(Str("F"))
    ensures |Categories(xTrain, "sex")| == 2
  {
    assert forall k :: 0 <= k < |xTrain.rows| ==> xTrain.rows[k]["sex"] in {Some(Str("M")), Some(Str("F"))};
    CategoriesOfTwo(xTrain, "sex", Some(Str("M")), Some(Str("F")), 0, 1);
  }

  /** A column holding two different values, and only those, has two categories. */
  lemma CategoriesOfTwo(df: DataFrame, c: string, a: Cell, b: Cell, i: nat, j: nat)
    requires WellFormed(df) && c in df.columns && a != b
    requires forall k :: 0 <= k < |df.rows| ==> df.rows[k][c] in {a, b}
    requires i < |df.rows| && j < |df.rows| && df.rows[i][c] == a && df.rows[j][c] == b
    ensures |Categories(df, c)| == 2
  {
    var cats := Categories(df, c);
    forall x | x in cats ensures x in {a, b} {
      var k :| 0 <= k < |df.rows| && df.rows[k][c] == x;
    }
    assert cats == {a, b};
  }

  // ----- Relabelling the transformed output -----

  /** A two-dimensional array of the transformed values, `nrows` by `ncols`. */
  datatype Matrix = Matrix(nrows: nat, ncols: nat, data: seq<seq<real>>)

  /** A numpy array is rectangular by construction. */
  predicate Rectangular(m: Matrix) {
    |m.data| == m.nrows && forall i :: 0 <= i < |m.data| ==> |m.data[i]| == m.ncols
  }

  /** pandas's ValueError when the values' shape disagrees with the index and column labels. */
  datatype FrameError = ShapeMismatch(passedRows: nat, passedCols: nat, impliedRows: nat, impliedCols: nat)

  /**
   * `transform_to_dataframe`: `featureNames` is the preprocessor's
   * `get_feature_names_out()`. The rows keep the training index, column j
   * is labelled `featureNames[j]` and holds column j of the matrix.
   */
  function TransformToDataFrame(featureNames: seq<string>, xTrain: DataFrame, m: Matrix): (r: Result<DataFrame, FrameError>)
    requires WellFormed(xTrain) && Rectangular(m) && Distinct(featureNames)
    ensures r.Ok? <==> m.nrows == |xTrain.index| && m.ncols == |featureNames|
    ensures r.Err? ==> r.error == ShapeMismatch(m.nrows, m.ncols, |xTrain.index|, |featureNames|)
    ensures r.Ok? ==>
              && WellFormed(r.value)
              && r.value.columns == featureNames
              && r.value.index == xTrain.index
              && (forall c :: c in featureNames ==> r.value.dtypes[c] == Float64)
              && (forall i, j :: 0 <= i < m.nrows && 0 <= j < m.ncols ==>
                    r.value.rows[i][featureNames[j]] == Some(Float(m.data[i][j])))
  {
    if m.nrows != |xTrain.index| || m.ncols != |featureNames| then
      Err(ShapeMismatch(m.nrows, m.ncols, |xTrain.index|, |featureNames|))
    else
      var df := DataFrame(
        featureNames,
        map c | c in ColumnSet(featureNames) :: Float64,
        xTrain.index,
        seq(m.nrows, i requires 0 <= i < m.nrows => LabelRow(featureNames, m.data[i])));
      Ok(df)
  }

  /** One transformed row as a frame row: the value at position j under label j. */
  function LabelRow(names: seq<string>, values: seq<real>): (row: Row)
    requires Distinct(names) && |values| == |names|
    ensures row.Keys == ColumnSet(names)
    ensures forall j :: 0 <= j < |names| ==> row[names[j]] == Some(Float(values[j]))
  {
    if names == [] then map[]
    else
      DistinctTail(names);
      var rest := LabelRow(names[1..], values[1..]);
      assert forall j :: 1 <= j < |names| ==> names[1..][j - 1] == names[j] && values[1..][j - 1] == values[j];
      rest[names[0] := Some(Float(values[0]))]
  }

  /** `df.to_numpy()` for a frame of float cells, in column order. */
  function FrameValues(df: DataFrame): (v: seq<seq<real>>)
    requires WellFormed(df)
    ensures |v| == |df.rows| && forall i :: 0 <= i < |v| ==> |v[i]| == |df.columns|
  {
    seq(|df.rows|, i requires 0 <= i < |df.rows| =>
      seq(|df.columns|, j requires 0 <= j < |df.columns| =>
        match df.rows[i][df.columns[j]]
        case Some(Float(x)) => x
        case _ => 0.0))
  }

  /** Relabelling loses nothing: reading the frame's values back gives the transformed matrix. */
  lemma TransformRoundTrip(featureNames: seq<string>, xTrain: DataFrame, m: Matrix)
    requires WellFormed(xTrain) && Rectangular(m) && Distinct(featureNames)
    requires m.nrows == |xTrain.index| && m.ncols == |featureNames|
    ensures TransformToDataFrame(featureNames, xTrain, m).Ok?
    ensures FrameValues(TransformToDataFrame(featureNames, xTrain, m).value) == m.data
  {
    var df := TransformToDataFrame(featureNames, xTrain, m).value;
    var v := FrameValues(df);
    forall i | 0 <= i < m.nrows ensures v[i] == m.data[i] {
      assert forall j :: 0 <= j < m.ncols ==> v[i][j] == m.data[i][j];
    }
  }

  /** A transform of the training rows with one column per output feature is always accepted. */
  lemma FittedOutputIsAccepted(featureNames: seq<string>, xTrain: DataFrame, m: Matrix)
    requires WellFormed(xTrain) && Rectangular(m) && Distinct(featureNames)
    requires |featureNames| == OutputWidth(xTrain)
    requires m.nrows == |xTrain.rows| && m.ncols == OutputWidth(xTrain)
    ensures TransformToDataFrame(featureNames, xTrain, m).Ok?
    ensures TransformToDataFrame(featureNames, xTrain, m).value.index == xTrain.index
  {
  }
}
