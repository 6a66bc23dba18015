/**
 * `load_valid_data`: two guards on the path, checked in order (the file
 * must exist, then its name must end in ".csv"), followed by the
 * projection of the parsed table onto the eight modelled columns. Whether
 * the path names a file, and the table the CSV reader produces, are
 * inputs: the file system and the parser are not modelled.
 */
module LoadValidData {
  import opened Frames
  import opened PyStrings
  import SchemaValidation

  datatype LoadError =
    | FileNotFound(path: string)
    | NotCsv(path: string)
    | KeyError(missing: seq<string>)

  /** The columns kept, in this order. */
  const StudentColumns: seq<string> := ["sex", "age", "studytime", "failures", "goout", "Dalc", "Walc", "G3"]

  lemma StudentColumnsDistinct()
    ensures Distinct(StudentColumns)
  {
  }

  /**
   * The load: `isFile` answers `os.path.isfile(path)` and `parsed` is what
   * `pd.read_csv(path, delimiter=";")` returns. Selecting a column the file
   * lacks raises pandas's KeyError, modelled as an error naming them.
   */
  function Load(path: string, isFile: bool, parsed: DataFrame): (r: Result<DataFrame, LoadError>)
    requires WellFormed(parsed)
    ensures !isFile ==> r == Err(FileNotFound(path))
    ensures isFile && !EndsWith(path, ".csv") ==> r == Err(NotCsv(path))
    ensures r.Ok? <==> isFile && EndsWith(path, ".csv") && forall c :: c in StudentColumns ==> c in parsed.columns
    ensures isFile && EndsWith(path, ".csv") && Absent(parsed.columns, StudentColumns) != [] ==>
              r == Err(KeyError(Absent(parsed.columns, StudentColumns)))
    ensures r.Err? && r.error.KeyError? ==> r.error.missing == Absent(parsed.columns, StudentColumns) && r.error.missing != []
    ensures r.Ok? ==>
              && WellFormed(r.value)
              && r.value.columns == StudentColumns
              && r.value.index == parsed.index
              && |r.value.rows| == |parsed.rows|
              && (forall c :: c in StudentColumns ==> r.value.dtypes[c] == parsed.dtypes[c])
              && (forall k, c :: 0 <= k < |parsed.rows| && c in StudentColumns ==> r.value.rows[k][c] == parsed.rows[k][c])
  {
    if !isFile then Err(FileNotFound(path))
    else if !EndsWith(path, ".csv") then Err(NotCsv(path))
    else
      var missing := Absent(parsed.columns, StudentColumns);
      assert missing != [] ==> missing[0] in missing;
      if missing != [] then Err(KeyError(missing))
      else
        StudentColumnsDistinct();
        Ok(Project(parsed, StudentColumns))
  }

  /**
   * The loader keeps exactly the columns the student schema constrains, in
   * the same order, so every column the schema judges reaches it.
   */
  lemma StudentColumnsAreSchemaColumns()
    ensures StudentColumns == SchemaValidation.SchemaColumns
    ensures forall k :: 0 <= k < |SchemaValidation.StudentSchema| ==> SchemaValidation.StudentSchema[k].name in StudentColumns
  {
    SchemaValidation.StudentSchemaShape();
  }

  /** The existence check comes first: a missing file is reported as not found whatever its extension. */
  lemma MissingNonCsvIsNotFound(parsed: DataFrame)
    requires WellFormed(parsed)
    ensures Load("students-math.txt", false, parsed) == Err(FileNotFound("students-math.txt"))
    ensures Load("students-eng.csv", false, parsed) == Err(FileNotFound("students-eng.csv"))
  {
  }

  /** An existing ".txt" file is refused as not CSV. */
  lemma ExistingTextFileIsNotCsv(parsed: DataFrame)
    requires WellFormed(parsed)
    ensures Load("students-math.txt", true, parsed) == Err(NotCsv("students-math.txt"))
  {
    EndsWithExamples();
  }

  /** Columns beyond the eight are dropped: none of them is in the result, whatever the file holds. */
  lemma OtherColumnsDropped(path: string, parsed: DataFrame, c: string)
    requires WellFormed(parsed)
    requires Load(path, true, parsed).Ok?
    requires c in parsed.columns && c !in StudentColumns
    ensures c !in Load(path, true, parsed).value.columns
    ensures forall k :: 0 <= k < |parsed.rows| ==> c !in Load(path, true, parsed).value.rows[k]
  {
  }
}
