/**
 * `make_jobs_table_row`: the jobs tab's table. The fetched frame's index
 * (the submission date) is turned back into a column, that column is
 * rewritten in place as `YYYY-MM-DD` text, the frame is narrowed to seven
 * fixed columns, and the result is rendered like any other table.
 */
module JobsTable {
  import opened Wrappers
  import opened Dates
  import opened Frames

  const DateColumn := "subm_date"

  /** The columns of the jobs table, in display order. */
  const JobColumns := ["subm_date", "job_id", "job_title", "company", "job_location", "salary", "norm_salary"]

  /** A value the `.dt` accessor accepts: a timestamp or NaT. */
  predicate IsDatetimeLike(v: Value) {
    v.Timestamp? || v.Null?
  }

  /** `strftime('%Y-%m-%d')` on one element: a timestamp becomes its ISO text, NaT stays missing. */
  function FormatCell(v: Value): (r: Value)
    requires IsDatetimeLike(v)
    ensures v.Null? ==> r.Null?
    ensures v.Timestamp? ==> r.Str? && IsoShaped(r.text) && ParseDate(r.text) == Some(v.date)
  {
    if v.Timestamp? then (ParseFormattedDate(v.date); Str(FormatDate(v.date))) else Null
  }

  /**
   * `df[col] = df[col].dt.strftime('%Y-%m-%d')`: every cell of `col` is
   * formatted and nothing else changes; fails unless the whole column is
   * datetime-like.
   */
  function FormatDateColumn(df: Frame, col: string): (r: Result<Frame, Error>)
    requires WellFormed(df) && col in df.columns
    ensures r.Failure? <==> exists i :: 0 <= i < |df.rows| && !IsDatetimeLike(df.rows[i][col])
    ensures r.Failure? ==> r.error == NotDatetimeLike(col)
    ensures r.Success? ==>
      && WellFormed(r.value)
      && r.value.indexName == df.indexName && r.value.index == df.index && r.value.columns == df.columns
      && |r.value.rows| == |df.rows|
      && forall i :: 0 <= i < |df.rows| ==>
           && r.value.rows[i][col] == FormatCell(df.rows[i][col])
           && forall c :: c in df.columns && c != col ==> r.value.rows[i][c] == df.rows[i][c]
  {
    if exists i :: 0 <= i < |df.rows| && !IsDatetimeLike(df.rows[i][col]) then Failure(NotDatetimeLike(col))
    else Success(df.(rows := seq(|df.rows|, i requires 0 <= i < |df.rows| => df.rows[i][col := FormatCell(df.rows[i][col])])))
  }

  /** The whole of `make_jobs_table_row(df, max_rows)` as one value, step by step. */
  function JobsTableOf(df: Frame, maxRows: int): (r: Result<Table, Error>)
    requires WellFormed(df)
    ensures r.Success? ==> r.value.header == JobColumns && |r.value.body| == RowLimit(|df.rows|, maxRows)
  {
    match ResetIndex(df)
    case Failure(e) => Failure(e)
    case Success(reset) =>
      if DateColumn !in reset.columns then Failure(MissingColumns([DateColumn]))
      else match FormatDateColumn(reset, DateColumn)
        case Failure(e) => Failure(e)
        case Success(formatted) =>
          match Select(formatted, JobColumns)
          case Failure(e) => Failure(e)
          case Success(projected) => Success(DfToTable(projected, maxRows))
  }

  /** What the jobs table needs of the fetched frame: every job column, with a datetime-like date. */
  predicate JobsTableDefined(df: Frame)
    requires WellFormed(df)
  {
    && IndexLabel(df) !in df.columns
    && (forall c :: c in JobColumns ==> c == IndexLabel(df) || c in df.columns)
    && forall i :: 0 <= i < |df.rows| ==> IsDatetimeLike(ResetCell(df, i, DateColumn))
  }

  /** The jobs table renders exactly when the frame has what it needs, whatever other columns it has. */
  lemma JobsTableSucceedsIff(df: Frame, maxRows: int)
    requires WellFormed(df)
    ensures JobsTableOf(df, maxRows).Success? <==> JobsTableDefined(df)
  {
    var name := IndexLabel(df);
    if name !in df.columns {
      var reset := ResetIndex(df).value;
      if DateColumn in reset.columns {
        assert forall i :: 0 <= i < |df.rows| ==> reset.rows[i][DateColumn] == ResetCell(df, i, DateColumn);
        if FormatDateColumn(reset, DateColumn).Success? {
          var formatted := FormatDateColumn(reset, DateColumn).value;
          assert formatted.columns == [name] + df.columns;
          if JobsTableDefined(df) {
            assert forall c :: c in JobColumns ==> c in formatted.columns;
          }
        }
      }
    }
  }

  /**
   * Each body cell of the jobs table is row `i`'s value for the job column:
   * the date rendered as `YYYY-MM-DD` text, every other column unchanged.
   */
  lemma JobsTableCells(df: Frame, maxRows: int, i: nat, j: nat)
    requires WellFormed(df) && JobsTableOf(df, maxRows).Success?
    requires i < RowLimit(|df.rows|, maxRows) && j < |JobColumns|
    ensures JobsTableDefined(df)
    ensures JobsTableOf(df, maxRows).value.body[i][j] ==
      if JobColumns[j] == DateColumn then FormatCell(ResetCell(df, i, DateColumn))
      else ResetCell(df, i, JobColumns[j])
  {
    JobsTableSucceedsIff(df, maxRows);
    var reset := ResetIndex(df).value;
    var formatted := FormatDateColumn(reset, DateColumn).value;
    var projected := Select(formatted, JobColumns).value;
    var c := JobColumns[j];
    assert projected.rows[i][c] == formatted.rows[i][c];
    assert c in reset.columns;
    assert reset.rows[i][c] == ResetCell(df, i, c);
  }

  /**
   * The first column of every rendered row is the submission date as
   * `YYYY-MM-DD` text that reads back as that date, or missing where the
   * date is missing.
   */
  lemma JobsTableDateCells(df: Frame, maxRows: int, i: nat)
    requires WellFormed(df) && JobsTableOf(df, maxRows).Success?
    requires i < RowLimit(|df.rows|, maxRows)
    ensures JobsTableDefined(df)
    ensures var cell := JobsTableOf(df, maxRows).value.body[i][0];
      match ResetCell(df, i, DateColumn)
      case Timestamp(d) => cell.Str? && |cell.text| == 10 && cell.text[4] == '-' && cell.text[7] == '-'
                           && ParseDate(cell.text) == Some(d)
      case _ => cell == Null
  {
    JobsTableCells(df, maxRows, i, 0);
  }

  /**
   * `jobs_df['subm_date'] = jobs_df['subm_date'].dt.strftime('%Y-%m-%d')`,
   * as an in-place overwrite of the column, one row at a time.
   */
  method FormatDatesInPlace(jobs: Frame) returns (r: Result<Frame, Error>)
    requires WellFormed(jobs) && DateColumn in jobs.columns
    ensures r == FormatDateColumn(jobs, DateColumn)
  {
    var rows := jobs.rows;
    var i := 0;
    while i < |rows|
      invariant 0 <= i <= |rows| == |jobs.rows|
      invariant forall k :: 0 <= k < i ==> IsDatetimeLike(jobs.rows[k][DateColumn])
      invariant forall k :: 0 <= k < i ==> rows[k] == jobs.rows[k][DateColumn := FormatCell(jobs.rows[k][DateColumn])]
      invariant forall k :: i <= k < |rows| ==> rows[k] == jobs.rows[k]
    {
      var v := rows[i][DateColumn];
      if !IsDatetimeLike(v) {
        assert !IsDatetimeLike(jobs.rows[i][DateColumn]);
        return Failure(NotDatetimeLike(DateColumn));
      }
      rows := rows[i := rows[i][DateColumn := FormatCell(v)]];
      i := i + 1;
    }
    var spec := FormatDateColumn(jobs, DateColumn);
    assert spec.Success? && |spec.value.rows| == |rows|;
    assert spec.value.rows == rows;
    r := Success(jobs.(rows := rows));
  }

  /**
   * `make_jobs_table_row`, rebinding a local frame step by step as
   * `make_jobs_table_row` does: reset the index, overwrite the date column, narrow to the
   * job columns, render.
   */
  method MakeJobsTable(df: Frame, maxRows: int) returns (r: Result<Table, Error>)
    requires WellFormed(df)
    ensures r == JobsTableOf(df, maxRows)
  {
    var reset := ResetIndex(df);
    if reset.Failure? {
      return Failure(reset.error);
    }
    var jobs := reset.value;
    if DateColumn !in jobs.columns {
      return Failure(MissingColumns([DateColumn]));
    }
    var formatted := FormatDatesInPlace(jobs);
    if formatted.Failure? {
      return Failure(formatted.error);
    }
    jobs := formatted.value;
    var projected := Select(jobs, JobColumns);
    if projected.Failure? {
      return Failure(projected.error);
    }
    r := Success(DfToTable(projected.value, maxRows));
  }
}
