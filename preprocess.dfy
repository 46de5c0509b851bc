/** Row cleaning (`preprocess_data`) and the parsing of the whole "Skills"
    column that the dashboard applies right after it. */
module Preprocess {
  import opened Wrappers
  import opened Text
  import opened Seqs
  import opened JobRecords
  import opened States
  import Skills

  /** The columns whose missing values drop a row. */
  const KeyColumns: set<string> := {"Job Category", "Location"}

  /** The columns converted to integers when the table has them, in the
      order they are converted. */
  const NumericColumns: seq<string> := ["Job Count", "Skill Count"]

  /** The cleaning steps reach their end without a `KeyError`: the key
      columns exist, and so does "Employment Type". */
  predicate Preprocessable(columns: set<string>)
  {
    KeyColumns <= columns && "Employment Type" in columns
  }

  /** The employment type as text, lower-cased: a missing value is first
      turned into the text "nan". */
  function LowerEmploymentType(e: Option<string>): (t: string)
    ensures IsLower(t)
    ensures e.Some? ==> |t| == |e.value|
    ensures e.Some? ==> forall i :: 0 <= i < |t| ==> t[i] == LowerChar(e.value[i])
    ensures e.None? ==> t == "nan"
  {
    Lower(e.GetOr("nan"))
  }

  /** One count cell as an integer: text that does not parse, and a missing
      value, become 0. `parseNumber` stands for pandas' parsing of text into
      a number. */
  function Coerce(c: Cell, parseNumber: string -> Option<int>): int
  {
    match c
    case Blank => 0
    case Number(n) => n
    case Raw(t) => parseNumber(t).GetOr(0)
  }

  /** The row with the location renamed and the employment type
      lower-cased: a present location stays present and is no longer an
      alias spelling, the employment type is present and lower-case, and
      every other field is kept. */
  function Relabel(r: Row): (r': Row)
    ensures r'.location.Some? <==> r.location.Some?
    ensures r'.location.Some? ==> r'.location.value !in Aliases
    ensures r'.employmentType.Some? && IsLower(r'.employmentType.value)
    ensures r'.employmentType == Some(LowerEmploymentType(r.employmentType))
    ensures r'.(location := r.location, employmentType := r.employmentType) == r
  {
    r.(location := if r.location.Some? then Some(NormalizeLocation(r.location.value)) else None,
       employmentType := Some(LowerEmploymentType(r.employmentType)))
  }

  /** The row with the numeric column `col` converted to an integer. */
  function CoerceColumn(r: Row, col: string, parseNumber: string -> Option<int>): Row
  {
    if col == "Job Count" then r.(jobCount := Number(Coerce(r.jobCount, parseNumber)))
    else if col == "Skill Count" then r.(skillCount := Number(Coerce(r.skillCount, parseNumber)))
    else r
  }

  /** The row after the first `j` rounds of the numeric-column loop. */
  function CoerceFirst(r: Row, j: nat, columns: set<string>, parseNumber: string -> Option<int>): Row
    requires j <= |NumericColumns|
  {
    if j == 0 then r
    else
      var r' := CoerceFirst(r, j - 1, columns, parseNumber);
      if NumericColumns[j - 1] in columns then CoerceColumn(r', NumericColumns[j - 1], parseNumber) else r'
  }

  /** The numeric-column loop changes only the numeric columns: it leaves
      every other field as it is, and the columns it has converted hold
      integers, unchanged by converting again. */
  lemma {:induction false} CoerceFirstFields(r: Row, j: nat, columns: set<string>, parseNumber: string -> Option<int>)
    requires j <= |NumericColumns|
    ensures var r' := CoerceFirst(r, j, columns, parseNumber);
            && r'.(jobCount := r.jobCount, skillCount := r.skillCount) == r
            && r'.jobCount == (if j >= 1 && "Job Count" in columns then Number(Coerce(r.jobCount, parseNumber)) else r.jobCount)
            && r'.skillCount == (if j >= 2 && "Skill Count" in columns then Number(Coerce(r.skillCount, parseNumber)) else r.skillCount)
  {
    if j > 0 {
      CoerceFirstFields(r, j - 1, columns, parseNumber);
    }
  }

  /** One kept row after every cleaning step. */
  function CleanRow(r: Row, columns: set<string>, parseNumber: string -> Option<int>): Row
  {
    CoerceFirst(Relabel(r), |NumericColumns|, columns, parseNumber)
  }

  /** The rows of the frame `preprocess_data` returns when no step fails:
      the rows with both key fields, each cleaned, in their original order. */
  function Preprocessed(rows: seq<Row>, columns: set<string>, parseNumber: string -> Option<int>): seq<Row>
  {
    var kept := Filter(rows, HasKeyFields);
    seq(|kept|, k requires 0 <= k < |kept| => CleanRow(kept[k], columns, parseNumber))
  }

  /** A row in the form `preprocess_data` leaves it: both key fields present,
      the location normalised, the employment type present and lower-case,
      and each numeric column the table has holding an integer. */
  predicate IsClean(r: Row, columns: set<string>)
  {
    && HasKeyFields(r)
    && r.location.value !in Aliases
    && r.employmentType.Some? && IsLower(r.employmentType.value)
    && ("Job Count" in columns ==> r.jobCount.Number?)
    && ("Skill Count" in columns ==> r.skillCount.Number?)
  }

  /** The fields that cleaning never touches are equal. */
  predicate SameRecord(a: Row, b: Row)
  {
    a.category == b.category && a.company == b.company && a.industry == b.industry && a.skills == b.skills
  }

  /** An in-memory table: its column names and its rows. */
  class JobFrame {
    var columns: set<string>
    var rows: seq<Row>

    constructor (columns: set<string>, rows: seq<Row>)
      ensures this.columns == columns && this.rows == rows
    {
      this.columns := columns;
      this.rows := rows;
    }

    /** Drops, in place, the rows that miss a job category or a location. */
    method DropIncomplete()
      modifies this`rows
      ensures rows == Filter(old(rows), HasKeyFields)
    {
      var kept: seq<Row> := [];
      var i := 0;
      while i < |rows|
        invariant 0 <= i <= |rows|
        invariant rows == old(rows)
        invariant kept == Filter(rows[..i], HasKeyFields)
      {
        assert rows[..i + 1] == rows[..i] + [rows[i]];
        FilterSnoc(rows[..i], rows[i], HasKeyFields);
        if HasKeyFields(rows[i]) {
          kept := kept + [rows[i]];
        }
        i := i + 1;
      }
      assert rows[..i] == rows;
      rows := kept;
    }

    /** Converts, in place, every cell of the count column `col` to an
        integer. */
    method CoerceNumericColumn(col: string, parseNumber: string -> Option<int>)
      modifies this`rows
      ensures |rows| == |old(rows)|
      ensures forall k :: 0 <= k < |rows| ==> rows[k] == CoerceColumn(old(rows)[k], col, parseNumber)
    {
      var k := 0;
      while k < |rows|
        invariant 0 <= k <= |rows| == |old(rows)|
        invariant forall m :: 0 <= m < k ==> rows[m] == CoerceColumn(old(rows)[m], col, parseNumber)
        invariant forall m :: k <= m < |rows| ==> rows[m] == old(rows)[m]
      {
        rows := rows[k := CoerceColumn(rows[k], col, parseNumber)];
        k := k + 1;
      }
    }

    /** Row cleaning. Dropping incomplete rows changes this frame; the
        column selection that follows makes a new frame, which receives the
        remaining steps and is returned. A `KeyError` from a
        missing column is caught and gives an empty frame: when a key column
        is missing, before anything changed; when "Employment Type" is
        missing, after the rows of this frame were dropped. */
    method PreprocessData(parseNumber: string -> Option<int>) returns (cleaned: JobFrame)
      modifies this
      ensures fresh(cleaned)
      ensures columns == old(columns)
      ensures rows == if KeyColumns <= columns then Filter(old(rows), HasKeyFields) else old(rows)
      ensures cleaned.columns == if Preprocessable(columns) then columns else {}
      ensures cleaned.rows == if Preprocessable(columns) then Preprocessed(old(rows), columns, parseNumber) else []
    {
      if !(KeyColumns <= columns) {
        cleaned := new JobFrame({}, []);
        return;
      }
      DropIncomplete();
      if "Employment Type" !in columns {
        cleaned := new JobFrame({}, []);
        return;
      }
      // the copy, with the locations renamed and the employment types lower-cased
      var kept := rows;
      var relabelled: seq<Row> := [];
      var i := 0;
      while i < |kept|
        invariant 0 <= i <= |kept|
        invariant |relabelled| == i
        invariant forall k :: 0 <= k < i ==> relabelled[k] == Relabel(kept[k])
      {
        relabelled := relabelled + [Relabel(kept[i])];
        i := i + 1;
      }
      cleaned := new JobFrame(columns, relabelled);
      // Convert each count column the table has, in turn.
      for j := 0 to |NumericColumns|
        invariant cleaned.columns == columns == old(columns) && rows == kept
        invariant |cleaned.rows| == |kept|
        invariant forall k :: 0 <= k < |kept| ==> cleaned.rows[k] == CoerceFirst(Relabel(kept[k]), j, columns, parseNumber)
      {
        var col := NumericColumns[j];
        if col in columns {
          cleaned.CoerceNumericColumn(col, parseNumber);
        }
      }
    }
  }

  /** Cleaning one row yields a clean row with the same record fields. */
  lemma CleanRowIsClean(r: Row, columns: set<string>, parseNumber: string -> Option<int>)
    requires HasKeyFields(r)
    ensures IsClean(CleanRow(r, columns, parseNumber), columns)
    ensures SameRecord(CleanRow(r, columns, parseNumber), r)
    ensures CleanRow(r, columns, parseNumber).location == Some(NormalizeLocation(r.location.value))
    ensures CleanRow(r, columns, parseNumber).employmentType == Some(LowerEmploymentType(r.employmentType))
  {
    LowerIsLower(r.employmentType.GetOr("nan"));
    CoerceFirstFields(Relabel(r), |NumericColumns|, columns, parseNumber);
  }

  /** After `preprocess_data` no row misses a job category or a location,
      every location is normalised, every employment type is lower-case; and
      the rows are the complete input rows, one for one and in their
      original order, with their record fields unchanged. */
  lemma {:induction false} PreprocessedProperties(rows: seq<Row>, columns: set<string>, parseNumber: string -> Option<int>)
    ensures var out := Preprocessed(rows, columns, parseNumber);
            var kept := Filter(rows, HasKeyFields);
            && |out| == |kept| == CountWhere(rows, HasKeyFields)
            && IsSubsequence(kept, rows)
            && (forall k :: 0 <= k < |out| ==> IsClean(out[k], columns) && SameRecord(out[k], kept[k]))
            && (forall k :: 0 <= k < |out| ==>
                  kept[k].location.Some? && out[k].location == Some(NormalizeLocation(kept[k].location.value)) &&
                  out[k].employmentType == Some(LowerEmploymentType(kept[k].employmentType)))
            && (forall r :: r in rows && HasKeyFields(r) ==> r in kept)
  {
    var kept := Filter(rows, HasKeyFields);
    FilterLength(rows, HasKeyFields);
    FilterIsSubsequence(rows, HasKeyFields);
    forall k | 0 <= k < |kept|
      ensures IsClean(CleanRow(kept[k], columns, parseNumber), columns)
      ensures SameRecord(CleanRow(kept[k], columns, parseNumber), kept[k])
      ensures kept[k].location.Some? && CleanRow(kept[k], columns, parseNumber).location == Some(NormalizeLocation(kept[k].location.value))
      ensures CleanRow(kept[k], columns, parseNumber).employmentType == Some(LowerEmploymentType(kept[k].employmentType))
    {
      assert kept[k] in kept;
      CleanRowIsClean(kept[k], columns, parseNumber);
    }
  }

  /** Cleaning an already clean row changes nothing. */
  lemma CleanRowIdempotent(r: Row, columns: set<string>, parseNumber: string -> Option<int>)
    requires IsClean(r, columns)
    ensures CleanRow(r, columns, parseNumber) == r
  {
    var e := r.employmentType.value;
    assert Lower(e) == e;
    assert Relabel(r).(jobCount := r.jobCount, skillCount := r.skillCount) == r;
    CoerceFirstFields(Relabel(r), |NumericColumns|, columns, parseNumber);
  }

  /** Running `preprocess_data` on its own output returns the same rows. */
  lemma {:induction false} PreprocessIdempotent(rows: seq<Row>, columns: set<string>, parseNumber: string -> Option<int>)
    ensures var once := Preprocessed(rows, columns, parseNumber);
            Preprocessed(once, columns, parseNumber) == once
  {
    var once := Preprocessed(rows, columns, parseNumber);
    PreprocessedProperties(rows, columns, parseNumber);
    AllKeptWhenComplete(once);
    var kept := Filter(once, HasKeyFields);
    assert kept == once;
    forall k | 0 <= k < |once|
      ensures CleanRow(once[k], columns, parseNumber) == once[k]
    {
      CleanRowIdempotent(once[k], columns, parseNumber);
    }
  }

  /** Dropping incomplete rows from rows that are all complete keeps them all. */
  lemma {:induction false} AllKeptWhenComplete(rows: seq<Row>)
    requires forall k :: 0 <= k < |rows| ==> HasKeyFields(rows[k])
    ensures Filter(rows, HasKeyFields) == rows
  {
    if rows != [] {
      AllKeptWhenComplete(rows[..|rows| - 1]);
      assert rows[..|rows| - 1] + [rows[|rows| - 1]] == rows;
    }
  }

  /** Skill parsing applied to the whole "Skills" column of the cleaned
      rows: every cell is parsed in row order, and the first exception
      escapes. */
  function ParseSkillsColumn(rows: seq<Row>, literalEval: string -> Skills.EvalOutcome): (r: Result<seq<Row>, Skills.PyException>)
    requires forall k :: 0 <= k < |rows| ==> rows[k].skills.RawSkills?
    ensures r.Ok? <==> forall k :: 0 <= k < |rows| ==> Skills.PreprocessSkills(rows[k].skills.text, literalEval).Ok?
    ensures r.Ok? ==>
              && |r.value| == |rows|
              && forall k :: 0 <= k < |rows| ==>
                   r.value[k] == rows[k].(skills := SkillList(Skills.PreprocessSkills(rows[k].skills.text, literalEval).value))
    ensures r.Err? ==>
              exists k :: 0 <= k < |rows| && Skills.PreprocessSkills(rows[k].skills.text, literalEval) == Err(r.error) &&
                          forall m :: 0 <= m < k ==> Skills.PreprocessSkills(rows[m].skills.text, literalEval).Ok?
  {
    if rows == [] then Ok([])
    else
      match Skills.PreprocessSkills(rows[0].skills.text, literalEval)
      case Err(e) => Err(e)
      case Ok(first) =>
        match ParseSkillsColumn(rows[1..], literalEval)
        case Err(e) => Err(e)
        case Ok(rest) => Ok([rows[0].(skills := SkillList(first))] + rest)
  }
}
