/**
 * The schema check of the student records (`validate_student_data`): a
 * fixed table of column rules, each a type, a value check and a
 * nullability flag, plus two frame-wide checks (no duplicated row, no row
 * that is missing everywhere). Validation is lazy: every violation found
 * in every column and row is reported together.
 */
module SchemaValidation {
  import opened Frames

  /** The declared element type of a column: `str` or `int`. */
  datatype FieldType = StrField | IntField

  /** `pa.Check.isin(allowed)` or the inclusive `pa.Check.between(lo, hi)`. */
  datatype Check = IsIn(allowed: seq<string>) | Between(lo: int, hi: int)

  datatype ColumnRule = ColumnRule(name: string, fieldType: FieldType, check: Check, nullable: bool)

  /**
   * The student schema. Every column is required and, as pandera's default
   * is, not nullable (the `sex` column states no `nullable=` and gets that
   * default). The frame is not strict: other columns are allowed.
   */
  const StudentSchema: seq<ColumnRule> := [
    ColumnRule("sex", StrField, IsIn(["M", "F"]), false),
    ColumnRule("age", IntField, Between(15, 22), false),
    ColumnRule("studytime", IntField, Between(1, 4), false),
    ColumnRule("failures", IntField, Between(0, 4), false),
    ColumnRule("goout", IntField, Between(1, 5), false),
    ColumnRule("Dalc", IntField, Between(1, 5), false),
    ColumnRule("Walc", IntField, Between(1, 5), false),
    ColumnRule("G3", IntField, Between(0, 20), false)
  ]

  /** The columns the schema constrains. */
  const SchemaColumns: seq<string> := ["sex", "age", "studytime", "failures", "goout", "Dalc", "Walc", "G3"]

  /** Every rule of the student schema is on one of those columns and is a plain rule. */
  lemma StudentSchemaShape()
    ensures forall k :: 0 <= k < |StudentSchema| ==> StudentSchema[k].name in SchemaColumns && PlainRule(StudentSchema[k])
  {
  }

  /** One entry of the aggregated schema error. */
  datatype Failure =
    | ColumnMissing(column: string)
    | WrongDtype(column: string)
    | NullValue(column: string, index: int)
    | CheckFailed(column: string, failed: Check, index: int, value: Value)
    | DuplicateRows
    | EmptyRows

  predicate ConcernsColumn(f: Failure, c: string) {
    !f.DuplicateRows? && !f.EmptyRows? && f.column == c
  }

  /** A present value passes a check; comparing a string with a bound fails the check. */
  predicate Satisfies(check: Check, v: Value) {
    match check
    case IsIn(allowed) => v.Str? && v.s in allowed
    case Between(lo, hi) =>
      match v
      case Int(i) => lo <= i <= hi
      case Float(x) => lo as real <= x <= hi as real
      case Str(_) => false
  }

  /** Checks skip missing values; a missing value is then only judged by nullability. */
  predicate CellOk(rule: ColumnRule, cell: Cell) {
    match cell
    case None => rule.nullable
    case Some(v) => Satisfies(rule.check, v)
  }

  /** An `int` column must have dtype int64; a `str` column must be of object dtype and hold only strings. */
  predicate DtypeOk(rule: ColumnRule, df: DataFrame)
    requires WellFormed(df) && rule.name in df.columns
  {
    match rule.fieldType
    case IntField => df.dtypes[rule.name] == Int64
    case StrField =>
      && df.dtypes[rule.name] == Object
      && forall i :: 0 <= i < |df.rows| ==> df.rows[i][rule.name].None? || df.rows[i][rule.name].value.Str?
  }

  function CellFailure(rule: ColumnRule, at: int, cell: Cell): (r: seq<Failure>)
    ensures r == [] <==> CellOk(rule, cell)
    ensures cell.None? && !rule.nullable ==> r == [NullValue(rule.name, at)]
    ensures cell.Some? && !Satisfies(rule.check, cell.value) ==> r == [CheckFailed(rule.name, rule.check, at, cell.value)]
    ensures forall f :: f in r ==> ConcernsColumn(f, rule.name)
  {
    match cell
    case None => if rule.nullable then [] else [NullValue(rule.name, at)]
    case Some(v) => if Satisfies(rule.check, v) then [] else [CheckFailed(rule.name, rule.check, at, v)]
  }

  /** The failures of one rule's null and value checks over all rows, reported lazily. */
  function CellFailures(rule: ColumnRule, index: seq<int>, rows: seq<Row>): (r: seq<Failure>)
    requires |index| == |rows|
    requires forall k :: 0 <= k < |rows| ==> rule.name in rows[k]
    ensures r == [] <==> forall k :: 0 <= k < |rows| ==> CellOk(rule, rows[k][rule.name])
    ensures forall k, f :: 0 <= k < |rows| && f in CellFailure(rule, index[k], rows[k][rule.name]) ==> f in r
    ensures forall f :: f in r ==> ConcernsColumn(f, rule.name)
  {
    if rows == [] then []
    else
      var rest := CellFailures(rule, index[1..], rows[1..]);
      assert forall k :: 1 <= k < |rows| ==> rows[1..][k - 1] == rows[k] && index[1..][k - 1] == index[k];
      CellFailure(rule, index[0], rows[0][rule.name]) + rest
  }

  /** All failures of one column rule: a missing required column, a wrong dtype, and its cells. */
  function ColumnFailures(rule: ColumnRule, df: DataFrame): (r: seq<Failure>)
    requires WellFormed(df)
    ensures r == [] <==> (rule.name in df.columns && DtypeOk(rule, df) &&
                          forall k :: 0 <= k < |df.rows| ==> CellOk(rule, df.rows[k][rule.name]))
    ensures rule.name !in df.columns ==> r == [ColumnMissing(rule.name)]
    ensures rule.name in df.columns && !DtypeOk(rule, df) ==> WrongDtype(rule.name) in r
    ensures forall f :: f in r ==> ConcernsColumn(f, rule.name)
  {
    if rule.name !in df.columns then [ColumnMissing(rule.name)]
    else (if DtypeOk(rule, df) then [] else [WrongDtype(rule.name)]) + CellFailures(rule, df.index, df.rows)
  }

  /** Every failing cell of a present column is reported. */
  lemma ColumnFailuresReportCells(rule: ColumnRule, df: DataFrame, k: nat, f: Failure)
    requires WellFormed(df) && rule.name in df.columns && k < |df.rows|
    requires f in CellFailure(rule, df.index[k], df.rows[k][rule.name])
    ensures f in ColumnFailures(rule, df)
  {
  }

  /** The column failures of every rule, in rule order. */
  function SchemaFailures(rules: seq<ColumnRule>, df: DataFrame): (r: seq<Failure>)
    requires WellFormed(df)
    ensures r == [] <==> forall k :: 0 <= k < |rules| ==> ColumnFailures(rules[k], df) == []
    ensures forall k, f :: 0 <= k < |rules| && f in ColumnFailures(rules[k], df) ==> f in r
  {
    if rules == [] then []
    else
      var rest := SchemaFailures(rules[1..], df);
      assert forall k :: 1 <= k < |rules| ==> rules[1..][k - 1] == rules[k];
      ColumnFailures(rules[0], df) + rest
  }

  /** Every failure of a list of rules concerns the column of one of the rules. */
  lemma {:induction false} SchemaFailuresConcern(rules: seq<ColumnRule>, df: DataFrame, f: Failure)
    requires WellFormed(df) && f in SchemaFailures(rules, df)
    ensures exists k :: 0 <= k < |rules| && ConcernsColumn(f, rules[k].name)
  {
    assert rules != [];
    if f in ColumnFailures(rules[0], df) {
      assert ConcernsColumn(f, rules[0].name);
    } else {
      assert SchemaFailures(rules, df) == ColumnFailures(rules[0], df) + SchemaFailures(rules[1..], df);
      SchemaFailuresConcern(rules[1..], df, f);
      var k :| 0 <= k < |rules[1..]| && ConcernsColumn(f, rules[1..][k].name);
      assert rules[1..][k] == rules[k + 1];
    }
  }

  /** `df.duplicated().any()`: two rows hold the same value (missing equal to missing) in every column. */
  predicate HasDuplicateRows(df: DataFrame) {
    exists i, j :: 0 <= i < j < |df.rows| && df.rows[i] == df.rows[j]
  }

  /** The column rules never report a frame-wide failure. */
  lemma FrameWideNotInSchemaFailures(rules: seq<ColumnRule>, df: DataFrame)
    requires WellFormed(df)
    ensures DuplicateRows !in SchemaFailures(rules, df) && EmptyRows !in SchemaFailures(rules, df)
  {
    if DuplicateRows in SchemaFailures(rules, df) { SchemaFailuresConcern(rules, df, DuplicateRows); }
    if EmptyRows in SchemaFailures(rules, df) { SchemaFailuresConcern(rules, df, EmptyRows); }
  }

  /** `df.isna().all(axis=1).any()`: some row is missing in every column. */
  predicate HasEmptyRow(df: DataFrame)
    requires WellFormed(df)
  {
    exists i :: 0 <= i < |df.rows| && forall c :: c in df.columns ==> df.rows[i][c].None?
  }

  /** Every violation of the student schema, the column rules first and then the two frame-wide checks. */
  function StudentFailures(df: DataFrame): (r: seq<Failure>)
    requires WellFormed(df)
    ensures r == [] <==> SchemaFailures(StudentSchema, df) == [] && !HasDuplicateRows(df) && !HasEmptyRow(df)
    ensures DuplicateRows in r <==> HasDuplicateRows(df)
    ensures EmptyRows in r <==> HasEmptyRow(df)
  {
    FrameWideNotInSchemaFailures(StudentSchema, df);
    SchemaFailures(StudentSchema, df)
      + (if HasDuplicateRows(df) then [DuplicateRows] else [])
      + (if HasEmptyRow(df) then [EmptyRows] else [])
  }

  /** `schema.validate(df, lazy=True)`: the frame itself when nothing is violated, otherwise every violation at once. */
  function ValidateStudentData(df: DataFrame): (r: Result<DataFrame, seq<Failure>>)
    requires WellFormed(df)
    ensures r.Ok? ==> r.value == df
    ensures r.Err? ==> r.error != [] && r.error == StudentFailures(df)
    ensures r.Ok? <==> StudentFailures(df) == []
    ensures HasDuplicateRows(df) ==> r == Err(StudentFailures(df)) && DuplicateRows in r.error
    ensures HasEmptyRow(df) ==> r == Err(StudentFailures(df)) && EmptyRows in r.error
  {
    var fs := StudentFailures(df);
    if fs == [] then Ok(df) else Err(fs)
  }

  // ----- An independent statement of when a record is valid -----

  predicate InRange(cell: Cell, lo: int, hi: int) {
    cell.Some? && cell.value.Int? && lo <= cell.value.i <= hi
  }

  /** A student record meets the schema: sex is M or F and every integer field is present and within its inclusive bounds. */
  predicate StudentRowConforms(row: Row) {
    && "sex" in row && row["sex"] in {Some(Str("M")), Some(Str("F"))}
    && "age" in row && InRange(row["age"], 15, 22)
    && "studytime" in row && InRange(row["studytime"], 1, 4)
    && "failures" in row && InRange(row["failures"], 0, 4)
    && "goout" in row && InRange(row["goout"], 1, 5)
    && "Dalc" in row && InRange(row["Dalc"], 1, 5)
    && "Walc" in row && InRange(row["Walc"], 1, 5)
    && "G3" in row && InRange(row["G3"], 0, 20)
  }

  /** The schema's columns are all present, sex as an object column and the rest as int64 columns. */
  predicate StudentDtypes(df: DataFrame)
    requires WellFormed(df)
  {
    && "sex" in df.columns && df.dtypes["sex"] == Object
    && "age" in df.columns && df.dtypes["age"] == Int64
    && "studytime" in df.columns && df.dtypes["studytime"] == Int64
    && "failures" in df.columns && df.dtypes["failures"] == Int64
    && "goout" in df.columns && df.dtypes["goout"] == Int64
    && "Dalc" in df.columns && df.dtypes["Dalc"] == Int64
    && "Walc" in df.columns && df.dtypes["Walc"] == Int64
    && "G3" in df.columns && df.dtypes["G3"] == Int64
  }

  /**
   * A column meets one rule, stated without failures: it is present, has
   * the declared dtype, and every value is present and passes the check.
   */
  predicate RuleConforms(rule: ColumnRule, df: DataFrame)
    requires WellFormed(df)
  {
    && rule.name in df.columns
    && match rule.check
       case IsIn(allowed) =>
         && df.dtypes[rule.name] == Object
         && forall k :: 0 <= k < |df.rows| ==>
              df.rows[k][rule.name].Some? && df.rows[k][rule.name].value.Str? && df.rows[k][rule.name].value.s in allowed
       case Between(lo, hi) =>
         && df.dtypes[rule.name] == Int64
         && forall k :: 0 <= k < |df.rows| ==> InRange(df.rows[k][rule.name], lo, hi)
  }

  /** The rules of this schema: not nullable, `isin` on string fields and `between` on integer fields. */
  predicate PlainRule(rule: ColumnRule) {
    !rule.nullable && (rule.fieldType == IntField <==> rule.check.Between?)
  }

  /** A rule of that form passes exactly when its column conforms. */
  lemma RuleIff(rule: ColumnRule, df: DataFrame)
    requires WellFormed(df) && Typed(df) && PlainRule(rule)
    ensures ColumnFailures(rule, df) == [] <==> RuleConforms(rule, df)
  {
    var c := rule.name;
    if c in df.columns {
      match rule.check
      case IsIn(allowed) =>
        if df.dtypes[c] == Object {
          forall k | 0 <= k < |df.rows|
            ensures (df.rows[k][c].None? || df.rows[k][c].value.Str?) && CellOk(rule, df.rows[k][c]) <==>
                    df.rows[k][c].Some? && df.rows[k][c].value.Str? && df.rows[k][c].value.s in allowed
          {
          }
        }
      case Between(lo, hi) =>
        if df.dtypes[c] == Int64 {
          forall k | 0 <= k < |df.rows|
            ensures CellOk(rule, df.rows[k][c]) <==> InRange(df.rows[k][c], lo, hi)
          {
            if df.rows[k][c].Some? { assert df.rows[k][c].value.Int?; }
          }
        }
    }
  }

  /** A list of such rules passes exactly when every column conforms to its rule. */
  lemma SchemaIffRules(rules: seq<ColumnRule>, df: DataFrame)
    requires WellFormed(df) && Typed(df) && forall k :: 0 <= k < |rules| ==> PlainRule(rules[k])
    ensures SchemaFailures(rules, df) == [] <==> forall k :: 0 <= k < |rules| ==> RuleConforms(rules[k], df)
  {
    forall k | 0 <= k < |rules| ensures ColumnFailures(rules[k], df) == [] <==> RuleConforms(rules[k], df) {
      RuleIff(rules[k], df);
    }
  }

  /** The eight rules, column by column, say the same as the dtype and record statement. */
  lemma StudentRulesIff(df: DataFrame)
    requires WellFormed(df)
    ensures (forall k :: 0 <= k < |StudentSchema| ==> RuleConforms(StudentSchema[k], df)) <==>
              StudentDtypes(df) && forall k :: 0 <= k < |df.rows| ==> StudentRowConforms(df.rows[k])
  {
    var s := StudentSchema;
    if forall k :: 0 <= k < |s| ==> RuleConforms(s[k], df) {
      assert RuleConforms(s[0], df) && RuleConforms(s[1], df) && RuleConforms(s[2], df) && RuleConforms(s[3], df);
      assert RuleConforms(s[4], df) && RuleConforms(s[5], df) && RuleConforms(s[6], df) && RuleConforms(s[7], df);
      forall k | 0 <= k < |df.rows| ensures StudentRowConforms(df.rows[k]) {
        assert df.rows[k].Keys == ColumnSet(df.columns);
        var cell := df.rows[k]["sex"];
        assert cell.Some? && cell.value.Str? && cell.value.s in ["M", "F"];
        assert cell.value.s == "M" || cell.value.s == "F";
      }
    }
    if StudentDtypes(df) && forall k :: 0 <= k < |df.rows| ==> StudentRowConforms(df.rows[k]) {
      forall k | 0 <= k < |s| ensures RuleConforms(s[k], df) {
        if k == 0 {
          assert forall r :: 0 <= r < |df.rows| ==> df.rows[r]["sex"] in {Some(Str("M")), Some(Str("F"))};
        }
      }
    }
  }

  /** The column rules pass exactly when the dtypes are as declared and every record conforms. */
  lemma SchemaPassesIff(df: DataFrame)
    requires WellFormed(df) && Typed(df)
    ensures SchemaFailures(StudentSchema, df) == [] <==>
              StudentDtypes(df) && forall k :: 0 <= k < |df.rows| ==> StudentRowConforms(df.rows[k])
  {
    StudentSchemaShape();
    SchemaIffRules(StudentSchema, df);
    StudentRulesIff(df);
  }

  /**
   * The frame is accepted exactly when the schema's columns have their
   * declared dtypes, every record conforms, no two rows are equal and no
   * row is missing everywhere.
   */
  lemma ValidateAcceptsIff(df: DataFrame)
    requires WellFormed(df) && Typed(df)
    ensures ValidateStudentData(df).Ok? <==>
              && StudentDtypes(df)
              && (forall k :: 0 <= k < |df.rows| ==> StudentRowConforms(df.rows[k]))
              && !HasDuplicateRows(df)
              && !HasEmptyRow(df)
  {
    SchemaPassesIff(df);
  }

  /** A failure of any rule, for any row, is part of the one aggregated error (lazy validation). */
  lemma LazyReportsEveryCellFailure(df: DataFrame, k: nat, row: nat, f: Failure)
    requires WellFormed(df)
    requires k < |StudentSchema| && StudentSchema[k].name in df.columns && row < |df.rows|
    requires f in CellFailure(StudentSchema[k], df.index[row], df.rows[row][StudentSchema[k].name])
    ensures ValidateStudentData(df) == Err(StudentFailures(df)) && f in StudentFailures(df)
  {
    ColumnFailuresReportCells(StudentSchema[k], df, row, f);
  }

  /** A record with age 23 and sex "X": both violations are reported in the one error, not just the first. */
  lemma BothViolationsReported(df: DataFrame, row: nat)
    requires WellFormed(df) && "sex" in df.columns && "age" in df.columns && row < |df.rows|
    requires df.rows[row]["sex"] == Some(Str("X")) && df.rows[row]["age"] == Some(Int(23))
    ensures ValidateStudentData(df).Err?
    ensures CheckFailed("sex", IsIn(["M", "F"]), df.index[row], Str("X")) in ValidateStudentData(df).error
    ensures CheckFailed("age", Between(15, 22), df.index[row], Int(23)) in ValidateStudentData(df).error
  {
    assert !Satisfies(IsIn(["M", "F"]), Str("X"));
    LazyReportsEveryCellFailure(df, 0, row, CheckFailed("sex", IsIn(["M", "F"]), df.index[row], Str("X")));
    LazyReportsEveryCellFailure(df, 1, row, CheckFailed("age", Between(15, 22), df.index[row], Int(23)));
  }

  /** Only the schema's eight columns can produce column failures: other columns such as G1 and G2 are never judged. */
  lemma {:induction false} OnlySchemaColumnsJudged(df: DataFrame, f: Failure)
    requires WellFormed(df)
    requires f in SchemaFailures(StudentSchema, df)
    ensures !f.DuplicateRows? && !f.EmptyRows? && f.column in SchemaColumns
  {
    StudentSchemaShape();
    SchemaFailuresConcern(StudentSchema, df, f);
    var k :| 0 <= k < |StudentSchema| && ConcernsColumn(f, StudentSchema[k].name);
  }

  /** Two frames that agree on a column (presence, dtype, every cell) get the same failures for a rule on it. */
  predicate AgreeOn(df1: DataFrame, df2: DataFrame, c: string)
    requires WellFormed(df1) && WellFormed(df2)
  {
    && (c in df1.columns <==> c in df2.columns)
    && (c in df1.columns ==>
          && df1.dtypes[c] == df2.dtypes[c]
          && |df1.rows| == |df2.rows|
          && forall k :: 0 <= k < |df1.rows| ==> df1.rows[k][c] == df2.rows[k][c])
  }

  lemma {:induction false} CellFailuresAgree(rule: ColumnRule, index: seq<int>, rows1: seq<Row>, rows2: seq<Row>)
    requires |index| == |rows1| == |rows2|
    requires forall k :: 0 <= k < |rows1| ==> rule.name in rows1[k] && rule.name in rows2[k] && rows1[k][rule.name] == rows2[k][rule.name]
    ensures CellFailures(rule, index, rows1) == CellFailures(rule, index, rows2)
  {
    if rows1 != [] {
      assert forall k :: 1 <= k < |rows1| ==> rows1[1..][k - 1] == rows1[k] && rows2[1..][k - 1] == rows2[k];
      CellFailuresAgree(rule, index[1..], rows1[1..], rows2[1..]);
    }
  }

  lemma {:induction false} SchemaFailuresAgree(rules: seq<ColumnRule>, df1: DataFrame, df2: DataFrame)
    requires WellFormed(df1) && WellFormed(df2) && df1.index == df2.index
    requires forall k :: 0 <= k < |rules| ==> AgreeOn(df1, df2, rules[k].name)
    ensures SchemaFailures(rules, df1) == SchemaFailures(rules, df2)
  {
    if rules != [] {
      ColumnFailuresAgree(rules[0], df1, df2);
      assert forall k :: 1 <= k < |rules| ==> rules[1..][k - 1] == rules[k];
      SchemaFailuresAgree(rules[1..], df1, df2);
      assert SchemaFailures(rules, df1) == ColumnFailures(rules[0], df1) + SchemaFailures(rules[1..], df1);
      assert SchemaFailures(rules, df2) == ColumnFailures(rules[0], df2) + SchemaFailures(rules[1..], df2);
    }
  }

  lemma ColumnFailuresAgree(rule: ColumnRule, df1: DataFrame, df2: DataFrame)
    requires WellFormed(df1) && WellFormed(df2) && df1.index == df2.index && AgreeOn(df1, df2, rule.name)
    ensures ColumnFailures(rule, df1) == ColumnFailures(rule, df2)
  {
    if rule.name in df1.columns {
      CellFailuresAgree(rule, df1.index, df1.rows, df2.rows);
      assert DtypeOk(rule, df1) == DtypeOk(rule, df2);
    }
  }

  /** Changing columns outside the schema, or adding or dropping them, never changes the column failures. */
  lemma ColumnsOutsideSchemaIgnored(df1: DataFrame, df2: DataFrame)
    requires WellFormed(df1) && WellFormed(df2) && df1.index == df2.index
    requires forall c :: c in SchemaColumns ==> AgreeOn(df1, df2, c)
    ensures SchemaFailures(StudentSchema, df1) == SchemaFailures(StudentSchema, df2)
  {
    StudentSchemaShape();
    SchemaFailuresAgree(StudentSchema, df1, df2);
  }
}
