/**
 * `split_train_test`: two argument guards, the separation of the features
 * X (every column but the target) from the target y, and the train/test
 * partition that scikit-learn's `train_test_split` makes. The library's
 * random permutation of the row positions is an input; its size rule for a
 * fractional `test_size` and its position slicing are modelled.
 */
module SplitData {
  import opened Frames

  datatype SplitError =
    | TargetNotFound(target: string)
    | TestSizeOutOfRange(testSize: real)
    | InvalidTestSize(testSize: real)
    | EmptyTrainSet(nSamples: nat, testSize: real)

  /** X_train, X_test, y_train, y_test, in the library's order. */
  datatype Split = Split(xTrain: DataFrame, xTest: DataFrame, yTrain: Series, yTest: Series)

  /** The function's own guards: the target column must exist, then 0 <= test_size <= 1. */
  function CheckArguments(df: DataFrame, target: string, testSize: real): (r: Outcome<SplitError>)
    ensures target !in df.columns ==> r == Fail(TargetNotFound(target))
    ensures target in df.columns ==> (r.Pass? <==> 0.0 <= testSize <= 1.0)
    ensures target in df.columns && r.Fail? ==> r == Fail(TestSizeOutOfRange(testSize))
  {
    if target !in df.columns then Fail(TargetNotFound(target))
    else if testSize < 0.0 || testSize > 1.0 then Fail(TestSizeOutOfRange(testSize))
    else Pass
  }

  /** `math.ceil`. */
  function Ceil(x: real): (r: int)
    ensures (r - 1) as real < x <= r as real
  {
    -((-x).Floor)
  }

  /** `ceil(test_size * n_samples)`, the library's test count for a fractional size. */
  function TestCount(n: nat, testSize: real): int {
    Ceil(testSize * n as real)
  }

  /** The test count is the least whole number of rows at or above the requested fraction, and lies in 0 .. n. */
  lemma TestCountBounds(n: nat, testSize: real)
    requires 0.0 < testSize < 1.0
    ensures TestCount(n, testSize) as real >= testSize * n as real > TestCount(n, testSize) as real - 1.0
    ensures 0 <= TestCount(n, testSize) <= n
    ensures n > 0 ==> TestCount(n, testSize) > 0
  {
    assert 0.0 <= testSize * n as real <= n as real;
  }

  /**
   * The library's sizes for a fractional `test_size`: the test part gets
   * `ceil(test_size * n)` rows and the training part the rest. A fraction
   * outside the open interval (0, 1), or an empty training part, is an error.
   */
  function ShuffleSplitSizes(n: nat, testSize: real): (r: Result<(nat, nat), SplitError>)
    ensures !(0.0 < testSize < 1.0) ==> r == Err(InvalidTestSize(testSize))
    ensures 0.0 < testSize < 1.0 ==> (r.Ok? <==> TestCount(n, testSize) < n)
    ensures 0.0 < testSize < 1.0 && r.Err? ==> r == Err(EmptyTrainSet(n, testSize))
    ensures r.Ok? ==> r.value.0 + r.value.1 == n && r.value.0 > 0 && r.value.1 == TestCount(n, testSize)
  {
    if testSize <= 0.0 || testSize >= 1.0 then Err(InvalidTestSize(testSize))
    else
      TestCountBounds(n, testSize);
      var nTest := TestCount(n, testSize);
      if nTest == n then Err(EmptyTrainSet(n, testSize))
      else Ok((n - nTest, nTest))
  }

  function Iota(n: nat): (s: seq<nat>)
    ensures |s| == n && forall i :: 0 <= i < n ==> s[i] == i
  {
    seq(n, i requires 0 <= i < n => i)
  }

  /** `perm` is a rearrangement of the row positions 0 .. n-1, as the library's `rng.permutation(n)` is. */
  predicate IsPermutation(perm: seq<nat>, n: nat) {
    |perm| == n && multiset(perm) == multiset(Iota(n))
  }

  lemma PermutationInRange(perm: seq<nat>, n: nat)
    requires IsPermutation(perm, n)
    ensures forall k :: 0 <= k < |perm| ==> perm[k] < n
  {
    forall k | 0 <= k < |perm| ensures perm[k] < n {
      assert perm[k] in multiset(perm);
      assert perm[k] in multiset(Iota(n));
      assert perm[k] in Iota(n);
    }
  }

  /**
   * `split_train_test(data, target_column, test_size)` with `perm` the
   * permutation drawn from the random state: the first `n_test` positions
   * form the test part and the remaining ones the training part.
   */
  function SplitTrainTest(df: DataFrame, target: string, testSize: real, perm: seq<nat>): (r: Result<Split, SplitError>)
    requires WellFormed(df) && IsPermutation(perm, |df.rows|)
    ensures target !in df.columns ==> r == Err(TargetNotFound(target))
    ensures target in df.columns && !(0.0 <= testSize <= 1.0) ==> r == Err(TestSizeOutOfRange(testSize))
    ensures target in df.columns && 0.0 <= testSize <= 1.0 ==> (r.Ok? <==> ShuffleSplitSizes(|df.rows|, testSize).Ok?)
    ensures r.Ok? ==>
              var s := r.value;
              var n := |df.rows|;
              var nTest := ShuffleSplitSizes(n, testSize).value.1;
              && |s.xTrain.rows| + |s.xTest.rows| == n
              && |s.yTrain.values| + |s.yTest.values| == n
              && |s.xTest.rows| == nTest == |s.yTest.values|
              && s.xTrain.columns == Without(df.columns, target) && s.xTest.columns == Without(df.columns, target)
              && s.yTrain.name == target && s.yTest.name == target
              && s.xTrain.index == s.yTrain.index && s.xTest.index == s.yTest.index
              && WellFormed(s.xTrain) && WellFormed(s.xTest)
  {
    match CheckArguments(df, target, testSize)
    case Fail(e) => Err(e)
    case Pass =>
      match ShuffleSplitSizes(|df.rows|, testSize)
      case Err(e) => Err(e)
      case Ok(sizes) =>
        var nTest := sizes.1;
        PermutationInRange(perm, |df.rows|);
        var test := perm[..nTest];
        var train := perm[nTest..];
        var s := Split(Features(df, target, train), Features(df, target, test), Targets(df, target, train), Targets(df, target, test));
        assert s.xTrain.index == s.yTrain.index && s.xTest.index == s.yTest.index;
        Ok(s)
  }

  /**
   * Row k of a part is row p of the data: the same index label in both
   * the features and the target, the target value of that row, and every
   * feature cell taken from it (`RowRestored` puts the two back together).
   */
  predicate RowSplitAt(df: DataFrame, target: string, x: DataFrame, y: Series, k: nat, p: nat) {
    && k < |x.rows| && k < |y.values| && k < |x.index| && k < |y.index| && p < |df.rows| && p < |df.index|
    && x.index[k] == df.index[p] && y.index[k] == df.index[p]
    && target in df.rows[p] && y.values[k] == df.rows[p][target]
    && (forall c :: c in x.columns ==> c in x.rows[k] && c in df.rows[p] && x.rows[k][c] == df.rows[p][c])
  }

  /** Test row k is the data row at position perm[k] of the permutation. */
  lemma TestRowFromData(df: DataFrame, target: string, testSize: real, perm: seq<nat>, s: Split, k: nat)
    requires WellFormed(df) && IsPermutation(perm, |df.rows|)
    requires SplitTrainTest(df, target, testSize, perm) == Ok(s)
    requires k < |s.xTest.rows|
    ensures RowSplitAt(df, target, s.xTest, s.yTest, k, perm[k])
  {
    var nTest := SplitIsCut(df, target, testSize, perm, s);
    assert perm[..nTest][k] == perm[k];
    TakenRowSplits(df, target, perm[..nTest], k);
  }

  /** Training row k - n_test is the data row at position perm[k], for the positions k from n_test on. */
  lemma TrainRowFromData(df: DataFrame, target: string, testSize: real, perm: seq<nat>, s: Split, k: nat)
    requires WellFormed(df) && IsPermutation(perm, |df.rows|)
    requires SplitTrainTest(df, target, testSize, perm) == Ok(s)
    requires |s.xTest.rows| <= k < |df.rows|
    ensures RowSplitAt(df, target, s.xTrain, s.yTrain, k - |s.xTest.rows|, perm[k])
  {
    var nTest := SplitIsCut(df, target, testSize, perm, s);
    assert perm[nTest..][k - nTest] == perm[k];
    TakenRowSplits(df, target, perm[nTest..], k - nTest);
  }

  /** An Ok split is the cut of the permutation at n_test: training rows after it, test rows before it. */
  lemma SplitIsCut(df: DataFrame, target: string, testSize: real, perm: seq<nat>, s: Split) returns (nTest: nat)
    requires WellFormed(df) && IsPermutation(perm, |df.rows|)
    requires SplitTrainTest(df, target, testSize, perm) == Ok(s)
    ensures target in df.columns && nTest <= |perm| == |df.rows| && |s.xTest.rows| == nTest
    ensures forall j :: 0 <= j < |perm| ==> perm[j] < |df.rows|
    ensures s == Split(Features(df, target, perm[nTest..]), Features(df, target, perm[..nTest]),
                       Targets(df, target, perm[nTest..]), Targets(df, target, perm[..nTest]))
  {
    nTest := ShuffleSplitSizes(|df.rows|, testSize).value.1;
    PermutationInRange(perm, |df.rows|);
  }

  /** The feature rows at the given positions. */
  function Features(df: DataFrame, target: string, pos: seq<nat>): (x: DataFrame)
    requires WellFormed(df) && forall k :: 0 <= k < |pos| ==> pos[k] < |df.rows|
    ensures WellFormed(x) && x.columns == Without(df.columns, target) && |x.rows| == |pos| && |x.index| == |pos|
    ensures forall k :: 0 <= k < |pos| ==> x.index[k] == df.index[pos[k]]
  {
    TakeRows(Project(df, Without(df.columns, target)), pos)
  }

  /** The target values at the given positions. */
  function Targets(df: DataFrame, target: string, pos: seq<nat>): (y: Series)
    requires WellFormed(df) && target in df.columns && forall k :: 0 <= k < |pos| ==> pos[k] < |df.rows|
    ensures y.name == target && |y.values| == |pos| && |y.index| == |pos|
    ensures forall k :: 0 <= k < |pos| ==> y.index[k] == df.index[pos[k]]
  {
    TakeValues(ColumnOf(df, target), pos)
  }

  lemma TakenRowSplits(df: DataFrame, target: string, pos: seq<nat>, k: nat)
    requires WellFormed(df) && target in df.columns && forall j :: 0 <= j < |pos| ==> pos[j] < |df.rows|
    requires k < |pos|
    ensures RowSplitAt(df, target, Features(df, target, pos), Targets(df, target, pos), k, pos[k])
  {
    var x := Project(df, Without(df.columns, target));
    var p := pos[k];
    assert Features(df, target, pos).rows[k] == x.rows[p];
    assert Targets(df, target, pos).values[k] == df.rows[p][target];
  }

  /** A split row and its target value together give back the whole data row. */
  lemma RowRestored(df: DataFrame, target: string, x: DataFrame, y: Series, k: nat, p: nat)
    requires WellFormed(df) && WellFormed(x) && x.columns == Without(df.columns, target)
    requires RowSplitAt(df, target, x, y, k, p)
    ensures x.rows[k][target := y.values[k]] == df.rows[p]
  {
    RestoreRow(x.rows[k], df.rows[p], target);
  }

  /** Putting the target cell back into a feature row gives the data row. */
  lemma RestoreRow(features: Row, row: Row, target: string)
    requires target in row && features.Keys == row.Keys - {target}
    requires forall c :: c in features ==> features[c] == row[c]
    ensures features[target := row[target]] == row
  {
  }

  /** The target check comes first: a missing target with a bad size reports the target. */
  lemma TargetCheckedFirst(df: DataFrame, perm: seq<nat>)
    requires WellFormed(df) && IsPermutation(perm, |df.rows|) && "nonexistent_column" !in df.columns
    ensures SplitTrainTest(df, "nonexistent_column", 1.5, perm) == Err(TargetNotFound("nonexistent_column"))
  {
  }

  /** The guard lets both endpoints through; the library then refuses them, as it needs 0 < test_size < 1. */
  lemma EndpointsPassGuardOnly(df: DataFrame, target: string, perm: seq<nat>)
    requires WellFormed(df) && IsPermutation(perm, |df.rows|) && target in df.columns
    ensures CheckArguments(df, target, 0.0) == Pass && CheckArguments(df, target, 1.0) == Pass
    ensures SplitTrainTest(df, target, 0.0, perm) == Err(InvalidTestSize(0.0))
    ensures SplitTrainTest(df, target, 1.0, perm) == Err(InvalidTestSize(1.0))
    ensures SplitTrainTest(df, target, 1.5, perm) == Err(TestSizeOutOfRange(1.5))
    ensures SplitTrainTest(df, target, -0.5, perm) == Err(TestSizeOutOfRange(-0.5))
  {
  }

  /** Five rows with test_size 0.4 give three training rows and two test rows, for every permutation. */
  lemma FiveRowsSplitThreeTwo(df: DataFrame, perm: seq<nat>)
    requires WellFormed(df) && |df.rows| == 5 && "target" in df.columns && IsPermutation(perm, 5)
    ensures SplitTrainTest(df, "target", 0.4, perm).Ok?
    ensures var s := SplitTrainTest(df, "target", 0.4, perm).value;
            |s.xTrain.rows| == 3 && |s.xTest.rows| == 2 && |s.yTrain.values| == 3 && |s.yTest.values| == 2
  {
    assert TestCount(5, 0.4) == 2;
  }

  /** With columns A, B and target, both feature parts have exactly the columns A and B. */
  lemma FeatureColumnsExample(df: DataFrame, testSize: real, perm: seq<nat>)
    requires WellFormed(df) && df.columns == ["A", "B", "target"] && IsPermutation(perm, |df.rows|)
    requires SplitTrainTest(df, "target", testSize, perm).Ok?
    ensures SplitTrainTest(df, "target", testSize, perm).value.xTrain.columns == ["A", "B"]
    ensures SplitTrainTest(df, "target", testSize, perm).value.xTest.columns == ["A", "B"]
  {
    WithoutSplice(df.columns, 2);
    assert df.columns[..2] + df.columns[3..] == ["A", "B"];
  }

  /** Every row position lands in exactly one of the two parts, exactly once. */
  lemma {:induction false} EveryRowOnce(perm: seq<nat>, n: nat, nTest: nat, p: nat)
    requires IsPermutation(perm, n) && nTest <= n && p < n
    ensures multiset(perm[..nTest])[p] + multiset(perm[nTest..])[p] == 1
  {
    assert perm == perm[..nTest] + perm[nTest..];
    assert multiset(perm) == multiset(perm[..nTest]) + multiset(perm[nTest..]);
    IotaOnce(n, p);
  }

  lemma {:induction false} IotaOnce(n: nat, p: nat)
    requires p < n
    ensures multiset(Iota(n))[p] == 1
  {
    if n == p + 1 {
      assert Iota(n) == Iota(p) + [p];
      assert p !in Iota(p);
    } else {
      assert Iota(n) == Iota(n - 1) + [n - 1];
      IotaOnce(n - 1, p);
    }
  }
}
