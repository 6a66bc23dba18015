/**
 * A small model of the pandas objects the pipeline passes around: a data
 * frame with ordered, distinctly named columns, a dtype per column, a row
 * index and one map from column name to cell per row; a series (one
 * labelled column); and the error-carrying wrappers used by the checks.
 */
module Frames {

  datatype Option<+T> = None | Some(value: T)

  datatype Result<+T, +E> = Ok(value: T) | Err(error: E)

  /** The outcome of a check that returns nothing on success. */
  datatype Outcome<+E> = Pass | Fail(error: E)

  /** A cell value as pandas reads it from the CSV file. */
  datatype Value = Str(s: string) | Int(i: int) | Float(r: real)

  /** A cell; `None` is a missing value (NaN or None). */
  type Cell = Option<Value>

  type Row = map<string, Cell>

  /** The pandas dtypes the pipeline meets. */
  datatype DType = Object | Int64 | Int32 | Float64 | Float32 | Bool | Category | Datetime

  datatype DataFrame = DataFrame(columns: seq<string>, dtypes: map<string, DType>, index: seq<int>, rows: seq<Row>)

  /** A single labelled column, such as `data[target_column]`. */
  datatype Series = Series(name: string, index: seq<int>, values: seq<Cell>)

  predicate Distinct<T(==)>(s: seq<T>) {
    forall i, j :: 0 <= i < j < |s| ==> s[i] != s[j]
  }

  function ColumnSet(cols: seq<string>): (r: set<string>)
    ensures forall c :: c in r <==> c in cols
  {
    set c | c in cols
  }

  /** The frame has distinct column labels, one dtype per column, one index label per row and one cell per column in every row. */
  predicate WellFormed(df: DataFrame) {
    && Distinct(df.columns)
    && df.dtypes.Keys == ColumnSet(df.columns)
    && |df.index| == |df.rows|
    && forall i :: 0 <= i < |df.rows| ==> df.rows[i].Keys == ColumnSet(df.columns)
  }

  /** pandas keeps the values of an integer column as integers and those of a float column as floats. */
  predicate Typed(df: DataFrame)
    requires WellFormed(df)
  {
    forall i, c :: 0 <= i < |df.rows| && c in df.columns && df.rows[i][c].Some? ==>
      (df.dtypes[c] in {Int64, Int32} ==> df.rows[i][c].value.Int?) &&
      (df.dtypes[c] in {Float64, Float32} ==> df.rows[i][c].value.Float?)
  }

  /** The requested names that are not columns, in request order (repeats kept). */
  function Absent(columns: seq<string>, requested: seq<string>): (r: seq<string>)
    ensures forall c :: c in r <==> c in requested && c !in columns
    ensures |r| <= |requested|
  {
    if requested == [] then []
    else (if requested[0] in columns then [] else [requested[0]]) + Absent(columns, requested[1..])
  }

  /** `Absent` is a filter: it distributes over concatenation of the request list. */
  lemma {:induction false} AbsentConcat(columns: seq<string>, a: seq<string>, b: seq<string>)
    ensures Absent(columns, a + b) == Absent(columns, a) + Absent(columns, b)
  {
    if a == [] {
      assert a + b == b;
    } else {
      assert (a + b)[1..] == a[1..] + b;
      AbsentConcat(columns, a[1..], b);
    }
  }

  /** The labels of `cols` other than `x`, in their original order. */
  function Without(cols: seq<string>, x: string): (r: seq<string>)
    ensures forall c :: c in r <==> c in cols && c != x
    ensures Distinct(cols) ==> Distinct(r)
    ensures |r| <= |cols|
  {
    if cols == [] then []
    else if cols[0] == x then Without(cols[1..], x)
    else
      var rest := Without(cols[1..], x);
      assert Distinct(cols) ==> Distinct([cols[0]] + rest) by {
        if Distinct(cols) {
          DistinctTail(cols);
          DistinctCons(cols[0], rest);
        }
      }
      [cols[0]] + rest
  }

  /** Removing a label that occurs once at position k leaves exactly the labels before and after it. */
  lemma {:induction false} WithoutSplice(cols: seq<string>, k: nat)
    requires Distinct(cols) && k < |cols|
    ensures Without(cols, cols[k]) == cols[..k] + cols[k + 1..]
  {
    if k == 0 {
      WithoutAbsent(cols[1..], cols[0]);
      assert cols[..0] + cols[1..] == cols[1..];
    } else {
      assert cols[0] != cols[k];
      DistinctTail(cols);
      WithoutSplice(cols[1..], k - 1);
      assert cols[1..][k - 1] == cols[k];
      assert cols[1..][..k - 1] + cols[1..][k..] == cols[1..k] + cols[k + 1..];
      assert [cols[0]] + (cols[1..k] + cols[k + 1..]) == cols[..k] + cols[k + 1..];
    }
  }

  lemma {:induction false} WithoutAbsent(cols: seq<string>, x: string)
    requires x !in cols
    ensures Without(cols, x) == cols
  {
    if cols != [] {
      assert x !in cols[1..];
      WithoutAbsent(cols[1..], x);
      assert [cols[0]] + cols[1..] == cols;
    }
  }

  /** `df[cols]`: the listed columns, in the listed order, with every row and the index kept. */
  function Project(df: DataFrame, cols: seq<string>): (r: DataFrame)
    requires WellFormed(df)
    requires Distinct(cols)
    requires forall c :: c in cols ==> c in df.columns
    ensures WellFormed(r)
    ensures r.columns == cols && r.index == df.index && |r.rows| == |df.rows|
    ensures forall c :: c in cols ==> r.dtypes[c] == df.dtypes[c]
    ensures forall i, c :: 0 <= i < |r.rows| && c in cols ==> r.rows[i][c] == df.rows[i][c]
  {
    var keep := ColumnSet(cols);
    DataFrame(
      cols,
      map c | c in keep :: df.dtypes[c],
      df.index,
      seq(|df.rows|, i requires 0 <= i < |df.rows| => map c | c in keep :: df.rows[i][c]))
  }

  /** `df[c]`: one column as a series. */
  function ColumnOf(df: DataFrame, c: string): (s: Series)
    requires WellFormed(df) && c in df.columns
    ensures s.name == c && s.index == df.index && |s.values| == |df.rows|
    ensures forall i :: 0 <= i < |s.values| ==> s.values[i] == df.rows[i][c]
  {
    Series(c, df.index, seq(|df.rows|, i requires 0 <= i < |df.rows| => df.rows[i][c]))
  }

  /** `df.iloc[pos]`: the rows at the given positions, in that order. */
  function TakeRows(df: DataFrame, pos: seq<nat>): (r: DataFrame)
    requires WellFormed(df)
    requires forall k :: 0 <= k < |pos| ==> pos[k] < |df.rows|
    ensures WellFormed(r)
    ensures r.columns == df.columns && r.dtypes == df.dtypes && |r.rows| == |pos|
    ensures forall k :: 0 <= k < |pos| ==> r.rows[k] == df.rows[pos[k]] && r.index[k] == df.index[pos[k]]
  {
    DataFrame(
      df.columns,
      df.dtypes,
      seq(|pos|, k requires 0 <= k < |pos| => df.index[pos[k]]),
      seq(|pos|, k requires 0 <= k < |pos| => df.rows[pos[k]]))
  }

  /** `s.iloc[pos]`. */
  function TakeValues(s: Series, pos: seq<nat>): (r: Series)
    requires |s.index| == |s.values|
    requires forall k :: 0 <= k < |pos| ==> pos[k] < |s.values|
    ensures r.name == s.name && |r.values| == |pos| && |r.index| == |pos|
    ensures forall k :: 0 <= k < |pos| ==> r.values[k] == s.values[pos[k]] && r.index[k] == s.index[pos[k]]
  {
    Series(
      s.name,
      seq(|pos|, k requires 0 <= k < |pos| => s.index[pos[k]]),
      seq(|pos|, k requires 0 <= k < |pos| => s.values[pos[k]]))
  }

  /** The columns whose dtype is one of `kinds`, in column order (`select_dtypes`). */
  function SelectDtypes(cols: seq<string>, dtypes: map<string, DType>, kinds: set<DType>): (r: seq<string>)
    requires forall c :: c in cols ==> c in dtypes
    ensures forall c :: c in r <==> c in cols && dtypes[c] in kinds
    ensures IsSubsequence(r, cols)
  {
    if cols == [] then []
    else if dtypes[cols[0]] in kinds then [cols[0]] + SelectDtypes(cols[1..], dtypes, kinds)
    else SelectDtypes(cols[1..], dtypes, kinds)
  }

  /** `a` is obtained from `b` by deleting elements, so keeps `b`'s order. */
  predicate IsSubsequence<T(==)>(a: seq<T>, b: seq<T>) {
    if a == [] then true
    else if b == [] then false
    else if a[0] == b[0] then IsSubsequence(a[1..], b[1..])
    else IsSubsequence(a, b[1..])
  }

  /** A subsequence of distinct labels has distinct labels. */
  lemma {:induction false} SubsequenceDistinct<T>(a: seq<T>, b: seq<T>)
    requires IsSubsequence(a, b) && Distinct(b)
    ensures Distinct(a)
  {
    if a != [] && b != [] {
      DistinctTail(b);
      if a[0] == b[0] {
        SubsequenceDistinct(a[1..], b[1..]);
        SubsequenceMembers(a[1..], b[1..]);
        assert a == [a[0]] + a[1..];
        DistinctCons(a[0], a[1..]);
      } else {
        SubsequenceDistinct(a, b[1..]);
      }
    }
  }

  lemma {:induction false} SubsequenceMembers<T>(a: seq<T>, b: seq<T>)
    requires IsSubsequence(a, b)
    ensures forall x :: x in a ==> x in b
  {
    if a != [] && b != [] {
      if a[0] == b[0] {
        SubsequenceMembers(a[1..], b[1..]);
        assert forall x :: x in a ==> x == a[0] || x in a[1..];
      } else {
        SubsequenceMembers(a, b[1..]);
      }
    }
  }

  lemma DistinctTail<T>(s: seq<T>)
    requires Distinct(s) && s != []
    ensures Distinct(s[1..]) && s[0] !in s[1..]
  {
    assert forall k :: 0 <= k < |s[1..]| ==> s[1..][k] == s[k + 1];
  }

  lemma DistinctCons<T>(x: T, s: seq<T>)
    requires Distinct(s) && x !in s
    ensures Distinct([x] + s)
  {
    assert forall k :: 0 < k < |[x] + s| ==> ([x] + s)[k] == s[k - 1];
  }
}
