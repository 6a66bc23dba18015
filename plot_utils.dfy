/**
 * The table behind `pearson_corr_plot`: the reserved-name guard, the
 * correlation matrix of the numeric columns melted into one row per
 * ordered pair of columns, the `var1 <= var2` filter that keeps one row per
 * unordered pair, and the absolute-correlation column. The Pearson
 * coefficients are floating point and are taken as an input `corr`, a
 * function from a pair of column names to their coefficient; the chart
 * drawn from the table is not modelled.
 */
module CorrelationPlot {
  import opened Frames
  import opened PyStrings

  /** The dtypes `select_dtypes(include='number')` keeps; booleans are not numbers there. */
  const NumberKinds: set<DType> := {Int64, Int32, Float64, Float32}

  /** The columns that take part in the correlation matrix, in column order. */
  function NumericColumns(df: DataFrame): (cols: seq<string>)
    requires WellFormed(df)
    ensures forall c :: c in cols <==> c in df.columns && df.dtypes[c] in NumberKinds
    ensures Distinct(cols)
    ensures IsSubsequence(cols, df.columns)
  {
    var cols := SelectDtypes(df.columns, df.dtypes, NumberKinds);
    SubsequenceDistinct(cols, df.columns);
    cols
  }

  /** A row of the melted matrix: `var1` is the matrix row label, `var2` the column label. */
  datatype CorrRow = CorrRow(var1: string, var2: string, correlation: real)

  /** A row of the final table, with `abs_corr` added. */
  datatype PairRow = PairRow(var1: string, var2: string, correlation: real, absCorr: real)

  /**
   * The two refusals: a column named "var1" or "var2" (the guard), and a
   * numeric column named "correlation", which pandas's `melt` refuses
   * because it is the `value_name` of the melted coefficients.
   */
  datatype PlotError = ReservedName | ValueNameClash

  /** One column `b` of the matrix, melted: a row for each row label of `inner`, in order. */
  function MeltColumn(inner: seq<string>, b: string, corr: (string, string) -> real): (r: seq<CorrRow>)
    ensures |r| == |inner|
    ensures forall i :: 0 <= i < |inner| ==> r[i] == CorrRow(inner[i], b, corr(inner[i], b))
  {
    if inner == [] then []
    else [CorrRow(inner[0], b, corr(inner[0], b))] + MeltColumn(inner[1..], b, corr)
  }

  /**
   * `corr().reset_index(names="var1").melt(id_vars="var1", var_name="var2")`:
   * the matrix columns `outer` one after the other, each melted over the
   * row labels `inner`.
   */
  function Melt(inner: seq<string>, outer: seq<string>, corr: (string, string) -> real): seq<CorrRow> {
    if outer == [] then []
    else MeltColumn(inner, outer[0], corr) + Melt(inner, outer[1..], corr)
  }

  /** Every melted row pairs a row label with a column label and carries their coefficient. */
  lemma {:induction false} MeltRows(inner: seq<string>, outer: seq<string>, corr: (string, string) -> real)
    ensures forall row :: row in Melt(inner, outer, corr) ==>
              row.var1 in inner && row.var2 in outer && row.correlation == corr(row.var1, row.var2)
  {
    if outer != [] {
      MeltRows(inner, outer[1..], corr);
      var col := MeltColumn(inner, outer[0], corr);
      assert forall row :: row in col ==> exists i :: 0 <= i < |inner| && row == col[i];
    }
  }

  /** `j * n` by repeated addition, which keeps the index arithmetic of the melted table linear for the solver. */
  function Times(j: nat, n: nat): (r: nat) {
    if j == 0 then 0 else n + Times(j - 1, n)
  }

  lemma {:induction false} TimesIsProduct(j: nat, n: nat)
    ensures Times(j, n) == j * n
  {
    if j > 0 {
      TimesIsProduct(j - 1, n);
      assert j * n == n + (j - 1) * n;
    }
  }

  /** Row i of block j comes before the end of block m, for j < m. */
  lemma {:induction false} TimesBelow(n: nat, m: nat, i: nat, j: nat)
    requires i < n && j < m
    ensures Times(j, n) + i < Times(m, n)
  {
    if j + 1 < m {
      TimesBelow(n, m - 1, i, j);
    }
  }

  /** The melted table has one row per (row label, column label) pair. */
  lemma {:induction false} MeltSize(inner: seq<string>, outer: seq<string>, corr: (string, string) -> real)
    ensures |Melt(inner, outer, corr)| == Times(|outer|, |inner|)
  {
    if outer != [] {
      MeltSize(inner, outer[1..], corr);
    }
  }

  /** Row j * n + i of the melted table is matrix entry (i, j): the column label varies slowest. */
  lemma {:induction false} MeltAt(inner: seq<string>, outer: seq<string>, corr: (string, string) -> real, i: nat, j: nat)
    requires i < |inner| && j < |outer|
    ensures Times(j, |inner|) + i < |Melt(inner, outer, corr)|
    ensures Melt(inner, outer, corr)[Times(j, |inner|) + i] == CorrRow(inner[i], outer[j], corr(inner[i], outer[j]))
  {
    var n := |inner|;
    MeltSize(inner, outer, corr);
    TimesBelow(n, |outer|, i, j);
    if j == 0 {
      MeltHead(inner, outer, corr, i);
    } else {
      MeltAt(inner, outer[1..], corr, i, j - 1);
      assert Times(j, n) + i == n + (Times(j - 1, n) + i);
      MeltShift(inner, outer, corr, Times(j - 1, n) + i);
      assert outer[1..][j - 1] == outer[j];
    }
  }

  /** The first block of the melt is the first matrix column. */
  lemma MeltHead(inner: seq<string>, outer: seq<string>, corr: (string, string) -> real, i: nat)
    requires i < |inner| && outer != []
    ensures i < |Melt(inner, outer, corr)|
    ensures Melt(inner, outer, corr)[i] == CorrRow(inner[i], outer[0], corr(inner[i], outer[0]))
  {
    assert Melt(inner, outer, corr) == MeltColumn(inner, outer[0], corr) + Melt(inner, outer[1..], corr);
  }

  /** Past the first block, the melt continues with the melt of the remaining columns. */
  lemma MeltShift(inner: seq<string>, outer: seq<string>, corr: (string, string) -> real, p: nat)
    requires outer != [] && p < |Melt(inner, outer[1..], corr)|
    ensures |inner| + p < |Melt(inner, outer, corr)|
    ensures Melt(inner, outer, corr)[|inner| + p] == Melt(inner, outer[1..], corr)[p]
  {
    var col := MeltColumn(inner, outer[0], corr);
    assert Melt(inner, outer, corr) == col + Melt(inner, outer[1..], corr);
    ConcatRight(col, Melt(inner, outer[1..], corr), p);
  }

  lemma ConcatRight<T>(x: seq<T>, y: seq<T>, k: nat)
    requires k < |y|
    ensures (x + y)[|x| + k] == y[k]
  {
  }

  // ----- Counting pairs -----

  /** The number of rows for the ordered pair (a, b). */
  function Count(rows: seq<CorrRow>, a: string, b: string): nat {
    if rows == [] then 0
    else (if rows[0].var1 == a && rows[0].var2 == b then 1 else 0) + Count(rows[1..], a, b)
  }

  lemma {:induction false} CountConcat(x: seq<CorrRow>, y: seq<CorrRow>, a: string, b: string)
    ensures Count(x + y, a, b) == Count(x, a, b) + Count(y, a, b)
  {
    if x == [] {
      assert x + y == y;
    } else {
      assert (x + y)[1..] == x[1..] + y;
      CountConcat(x[1..], y, a, b);
    }
  }

  /** In a melted column of distinct labels, (a, b) occurs once if b is the column and a a row label, otherwise never. */
  lemma {:induction false} CountMeltColumn(inner: seq<string>, c: string, corr: (string, string) -> real, a: string, b: string)
    requires Distinct(inner)
    ensures Count(MeltColumn(inner, c, corr), a, b) == if a in inner && b == c then 1 else 0
  {
    if inner != [] {
      DistinctTail(inner);
      CountMeltColumn(inner[1..], c, corr, a, b);
      assert MeltColumn(inner, c, corr)[1..] == MeltColumn(inner[1..], c, corr);
      assert a in inner <==> a == inner[0] || a in inner[1..];
    }
  }

  /** The melted table of distinct labels holds each ordered pair of labels exactly once. */
  lemma {:induction false} CountMelt(inner: seq<string>, outer: seq<string>, corr: (string, string) -> real, a: string, b: string)
    requires Distinct(inner) && Distinct(outer)
    ensures Count(Melt(inner, outer, corr), a, b) == if a in inner && b in outer then 1 else 0
  {
    if outer != [] {
      DistinctTail(outer);
      CountConcat(MeltColumn(inner, outer[0], corr), Melt(inner, outer[1..], corr), a, b);
      CountMeltColumn(inner, outer[0], corr, a, b);
      CountMelt(inner, outer[1..], corr, a, b);
      assert b in outer <==> b == outer[0] || b in outer[1..];
    }
  }

  // ----- The var1 <= var2 filter -----

  /** `corr_mat[corr_mat['var1'] <= corr_mat['var2']]`, with Python's string order. */
  function Keep(rows: seq<CorrRow>): (r: seq<CorrRow>)
    ensures forall row :: row in r <==> row in rows && LexLe(row.var1, row.var2)
    ensures |r| <= |rows|
  {
    if rows == [] then []
    else
      var rest := Keep(rows[1..]);
      assert forall row :: row in rows <==> row == rows[0] || row in rows[1..];
      if LexLe(rows[0].var1, rows[0].var2) then [rows[0]] + rest else rest
  }

  lemma {:induction false} KeepConcat(x: seq<CorrRow>, y: seq<CorrRow>)
    ensures Keep(x + y) == Keep(x) + Keep(y)
  {
    if x == [] {
      assert x + y == y;
    } else {
      assert (x + y)[1..] == x[1..] + y;
      KeepConcat(x[1..], y);
    }
  }

  /** The filter keeps every row of a pair with a <= b and drops every row of any other pair. */
  lemma {:induction false} CountKeep(rows: seq<CorrRow>, a: string, b: string)
    ensures Count(Keep(rows), a, b) == if LexLe(a, b) then Count(rows, a, b) else 0
  {
    if rows != [] {
      CountKeep(rows[1..], a, b);
      if LexLe(rows[0].var1, rows[0].var2) {
        assert ([rows[0]] + Keep(rows[1..]))[1..] == Keep(rows[1..]);
      }
    }
  }

  // ----- The final table -----

  function Abs(x: real): (y: real)
    ensures y >= 0.0 && (y == x || y == -x)
  {
    if x < 0.0 then -x else x
  }

  /** `corr_mat["abs_corr"] = np.abs(corr_mat["correlation"])`. */
  function WithAbs(rows: seq<CorrRow>): (r: seq<PairRow>)
    ensures |r| == |rows|
    ensures forall k :: 0 <= k < |rows| ==>
              r[k] == PairRow(rows[k].var1, rows[k].var2, rows[k].correlation, Abs(rows[k].correlation))
  {
    if rows == [] then []
    else [PairRow(rows[0].var1, rows[0].var2, rows[0].correlation, Abs(rows[0].correlation))] + WithAbs(rows[1..])
  }

  /** The kept rows of the melted matrix of the numeric columns, before `abs_corr` is added. */
  function Pairs(df: DataFrame, corr: (string, string) -> real): seq<CorrRow>
    requires WellFormed(df)
  {
    var num := NumericColumns(df);
    Keep(Melt(num, num, corr))
  }

  /**
   * The table `pearson_corr_plot` charts. A column named "var1" or "var2"
   * anywhere in the frame is refused before anything is computed; a
   * numeric column named "correlation" is then refused by the melt.
   */
  function PearsonCorrTable(df: DataFrame, corr: (string, string) -> real): (r: Result<seq<PairRow>, PlotError>)
    requires WellFormed(df)
    ensures r.Err? <==> "var1" in df.columns || "var2" in df.columns || "correlation" in NumericColumns(df)
    ensures "var1" in df.columns || "var2" in df.columns ==> r == Err(ReservedName)
    ensures r == Err(ValueNameClash) <==>
              "var1" !in df.columns && "var2" !in df.columns && "correlation" in NumericColumns(df)
    ensures r.Ok? ==> |r.value| == |Pairs(df, corr)|
    ensures r.Ok? ==> forall k :: 0 <= k < |r.value| ==>
              var row := r.value[k];
              && row.var1 in df.columns && df.dtypes[row.var1] in NumberKinds
              && row.var2 in df.columns && df.dtypes[row.var2] in NumberKinds
              && LexLe(row.var1, row.var2)
              && row.correlation == corr(row.var1, row.var2)
              && row.absCorr == Abs(row.correlation) >= 0.0
  {
    if "var1" in df.columns || "var2" in df.columns then Err(ReservedName)
    else if "correlation" in NumericColumns(df) then Err(ValueNameClash)
    else
      var pairs := Pairs(df, corr);
      MeltRows(NumericColumns(df), NumericColumns(df), corr);
      assert forall k :: 0 <= k < |pairs| ==> pairs[k] in pairs;
      Ok(WithAbs(pairs))
  }

  /** The table's rows are the kept pairs, in melt order, each with its absolute correlation beside it. */
  lemma TableRowsArePairs(df: DataFrame, corr: (string, string) -> real, k: nat)
    requires WellFormed(df) && PearsonCorrTable(df, corr).Ok? && k < |Pairs(df, corr)|
    ensures var p := Pairs(df, corr)[k];
            PearsonCorrTable(df, corr).value[k] == PairRow(p.var1, p.var2, p.correlation, Abs(p.correlation))
  {
  }

  /**
   * For numeric columns a and b the kept pairs hold (a, b) once when
   * a <= b and never otherwise; so a diagonal pair appears once and of two
   * distinct columns exactly one orientation appears, once.
   */
  lemma EachUnorderedPairOnce(df: DataFrame, corr: (string, string) -> real, a: string, b: string)
    requires WellFormed(df)
    requires a in NumericColumns(df) && b in NumericColumns(df)
    ensures Count(Pairs(df, corr), a, b) == if LexLe(a, b) then 1 else 0
    ensures Count(Pairs(df, corr), a, a) == 1
    ensures a != b ==> Count(Pairs(df, corr), a, b) + Count(Pairs(df, corr), b, a) == 1
  {
    var num := NumericColumns(df);
    CountKeep(Melt(num, num, corr), a, b);
    CountMelt(num, num, corr, a, b);
    CountKeep(Melt(num, num, corr), b, a);
    CountMelt(num, num, corr, b, a);
    CountKeep(Melt(num, num, corr), a, a);
    CountMelt(num, num, corr, a, a);
    LexLeReflexive(a);
    if a != b {
      LexLeExactlyOne(a, b);
    }
  }

  /** No pair of names outside the numeric columns appears. */
  lemma OnlyNumericPairs(df: DataFrame, corr: (string, string) -> real, a: string, b: string)
    requires WellFormed(df)
    requires a !in NumericColumns(df) || b !in NumericColumns(df)
    ensures Count(Pairs(df, corr), a, b) == 0
  {
    var num := NumericColumns(df);
    CountKeep(Melt(num, num, corr), a, b);
    CountMelt(num, num, corr, a, b);
  }

  // ----- The size of the table -----

  /** How many labels of `s` are <= b. */
  function LeCount(s: seq<string>, b: string): (n: nat)
    ensures n <= |s|
  {
    if s == [] then 0 else (if LexLe(s[0], b) then 1 else 0) + LeCount(s[1..], b)
  }

  /** How many labels of `s` are >= x. */
  function GeCount(s: seq<string>, x: string): (n: nat)
    ensures n <= |s|
  {
    if s == [] then 0 else (if LexLe(x, s[0]) then 1 else 0) + GeCount(s[1..], x)
  }

  /** The kept rows of the melt of `inner` over `outer`, counted column by column. */
  function KeptCount(inner: seq<string>, outer: seq<string>): nat {
    if outer == [] then 0 else LeCount(inner, outer[0]) + KeptCount(inner, outer[1..])
  }

  lemma {:induction false} KeepMeltColumnSize(inner: seq<string>, b: string, corr: (string, string) -> real)
    ensures |Keep(MeltColumn(inner, b, corr))| == LeCount(inner, b)
  {
    if inner != [] {
      assert MeltColumn(inner, b, corr)[1..] == MeltColumn(inner[1..], b, corr);
      KeepMeltColumnSize(inner[1..], b, corr);
    }
  }

  lemma {:induction false} KeepMeltSize(inner: seq<string>, outer: seq<string>, corr: (string, string) -> real)
    ensures |Keep(Melt(inner, outer, corr))| == KeptCount(inner, outer)
  {
    if outer != [] {
      KeepConcat(MeltColumn(inner, outer[0], corr), Melt(inner, outer[1..], corr));
      KeepMeltColumnSize(inner, outer[0], corr);
      KeepMeltSize(inner, outer[1..], corr);
    }
  }

  /** Adding a row label x adds, for each column, one kept row when x <= that column. */
  lemma {:induction false} KeptCountCons(x: string, inner: seq<string>, outer: seq<string>)
    ensures KeptCount([x] + inner, outer) == GeCount(outer, x) + KeptCount(inner, outer)
  {
    if outer != [] {
      assert ([x] + inner)[1..] == inner;
      KeptCountCons(x, inner, outer[1..]);
    }
  }

  /** Against labels other than x, exactly one of `s[k] <= x` and `x <= s[k]` holds. */
  lemma {:induction false} LeGeSplit(s: seq<string>, x: string)
    requires x !in s
    ensures LeCount(s, x) + GeCount(s, x) == |s|
  {
    if s != [] {
      LexLeExactlyOne(s[0], x);
      LeGeSplit(s[1..], x);
    }
  }

  /** Of the n * n ordered pairs of n distinct labels, n(n+1)/2 satisfy var1 <= var2. */
  lemma {:induction false} KeptCountTriangle(s: seq<string>)
    requires Distinct(s)
    ensures 2 * KeptCount(s, s) == |s| * (|s| + 1)
  {
    if s != [] {
      var x, t := s[0], s[1..];
      DistinctTail(s);
      assert s == [x] + t;
      LexLeReflexive(x);
      assert LeCount(s, x) == 1 + LeCount(t, x);
      KeptCountCons(x, t, t);
      LeGeSplit(t, x);
      KeptCountTriangle(t);
      assert KeptCount(s, s) == 1 + |t| + KeptCount(t, t);
      assert |s| * (|s| + 1) == (|t| + 1) * (|t| + 2) == |t| * (|t| + 1) + 2 * (|t| + 1);
    }
  }

  /** The melted table has n * n rows and the final table n(n+1)/2, for n numeric columns. */
  lemma TableSize(df: DataFrame, corr: (string, string) -> real)
    requires WellFormed(df) && PearsonCorrTable(df, corr).Ok?
    ensures var n := |NumericColumns(df)|;
            && |Melt(NumericColumns(df), NumericColumns(df), corr)| == n * n
            && 2 * |PearsonCorrTable(df, corr).value| == n * (n + 1)
  {
    var num := NumericColumns(df);
    MeltSize(num, num, corr);
    TimesIsProduct(|num|, |num|);
    KeepMeltSize(num, num, corr);
    KeptCountTriangle(num);
  }

  /** Four float columns, as in x1, x2, x3 and target, give sixteen melted rows and a table of ten. */
  lemma FourColumnTable(df: DataFrame, corr: (string, string) -> real)
    requires WellFormed(df) && df.columns == ["x1", "x2", "x3", "target"]
    requires forall c :: c in df.columns ==> df.dtypes[c] == Float64
    ensures PearsonCorrTable(df, corr).Ok?
    ensures |PearsonCorrTable(df, corr).value| == 10
  {
    var num := NumericColumns(df);
    assert |num| == 4 by {
      SelectAll(df.columns, df.dtypes);
    }
    TableSize(df, corr);
  }

  lemma {:induction false} SelectAll(cols: seq<string>, dtypes: map<string, DType>)
    requires forall c :: c in cols ==> c in dtypes && dtypes[c] in NumberKinds
    ensures SelectDtypes(cols, dtypes, NumberKinds) == cols
  {
    if cols != [] {
      SelectAll(cols[1..], dtypes);
      assert [cols[0]] + cols[1..] == cols;
    }
  }

  /** A float column named "correlation" is refused by the melt; an object column of that name is not selected and passes. */
  lemma CorrelationColumnClash(df1: DataFrame, df2: DataFrame, corr: (string, string) -> real)
    requires WellFormed(df1) && df1.columns == ["correlation", "x"] && forall c :: c in df1.columns ==> df1.dtypes[c] == Float64
    requires WellFormed(df2) && df2.columns == ["correlation", "x"] && df2.dtypes == map["correlation" := Object, "x" := Float64]
    ensures PearsonCorrTable(df1, corr) == Err(ValueNameClash)
    ensures PearsonCorrTable(df2, corr).Ok?
  {
    assert df1.columns[0] == "correlation";
    assert "correlation" !in NumericColumns(df2) by {
      assert df2.dtypes["correlation"] !in NumberKinds;
    }
  }

  /** The frame with columns var1, var2, var3 and target is refused. */
  lemma ReservedColumnsRefused(df: DataFrame, corr: (string, string) -> real)
    requires WellFormed(df) && df.columns == ["var1", "var2", "var3", "target"]
    ensures PearsonCorrTable(df, corr) == Err(ReservedName)
  {
    assert df.columns[0] == "var1";
  }
}
