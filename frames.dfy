/**
 * The pandas data frame a query returns, reduced to what the dashboard uses:
 * a named index, an ordered list of column labels, and rows mapping labels to
 * cell values. Also the frame operations the renderers apply (`reset_index`,
 * column selection `df[cols]`) and the generic table renderer `df_to_table`.
 */
module Frames {
  import opened Wrappers
  import opened Dates

  /** A cell: text, a number, a missing value (None / NaN / NaT) or a timestamp. */
  datatype Value = Str(text: string) | Int(number: int) | Null | Timestamp(date: Date)

  type Row = map<string, Value>

  datatype Frame = Frame(indexName: Option<string>, index: seq<Value>, columns: seq<string>, rows: seq<Row>)

  /** The errors pandas raises in the operations modelled here. */
  datatype Error =
    | CannotInsert(column: string)         // reset_index: the index label is already a column
    | MissingColumns(columns: seq<string>)  // df[col] or df[cols] with absent labels
    | NotDatetimeLike(column: string)     // the `.dt` accessor on a non-datetime column
    | NotNumeric(column: string)          // mean() over non-numeric values

  predicate Distinct(labels: seq<string>) {
    forall i, j :: 0 <= i < j < |labels| ==> labels[i] != labels[j]
  }

  /** One index entry per row, unique column labels, and every row holding exactly the columns. */
  predicate WellFormed(df: Frame) {
    && |df.index| == |df.rows|
    && Distinct(df.columns)
    && forall i :: 0 <= i < |df.rows| ==> HasExactly(df.rows[i], df.columns)
  }

  predicate HasExactly(row: Row, columns: seq<string>) {
    (forall c :: c in row ==> c in columns) && (forall c :: c in columns ==> c in row)
  }

  // ---------------------------------------------------------------- reset_index

  /** The label `reset_index` gives the column it makes from the index. */
  function IndexLabel(df: Frame): string {
    match df.indexName
    case Some(name) => name
    case None => if "index" in df.columns then "level_0" else "index"
  }

  /** The value row `i` holds under label `c` once the index has become a column. */
  function ResetCell(df: Frame, i: nat, c: string): Value
    requires WellFormed(df) && i < |df.rows|
    requires c == IndexLabel(df) || c in df.columns
  {
    if c == IndexLabel(df) then df.index[i] else df.rows[i][c]
  }

  /**
   * `df.reset_index()`: the index becomes the first column and a fresh
   * 0, 1, 2, ... index replaces it; fails when the label is already a column.
   */
  function ResetIndex(df: Frame): (r: Result<Frame, Error>)
    requires WellFormed(df)
    ensures r.Failure? <==> IndexLabel(df) in df.columns
    ensures r.Failure? ==> r.error == CannotInsert(IndexLabel(df))
    ensures r.Success? ==>
      && WellFormed(r.value)
      && r.value.indexName == None
      && r.value.columns == [IndexLabel(df)] + df.columns
      && |r.value.rows| == |df.rows|
      && forall i :: 0 <= i < |df.rows| ==>
           r.value.index[i] == Int(i)
           && forall c :: c in r.value.columns ==> r.value.rows[i][c] == ResetCell(df, i, c)
  {
    var name := IndexLabel(df);
    if name in df.columns then Failure(CannotInsert(name))
    else
      var rows := seq(|df.rows|, i requires 0 <= i < |df.rows| => df.rows[i][name := df.index[i]]);
      var columns := [name] + df.columns;
      assert Distinct(columns) by {
        forall i, j | 0 <= i < j < |columns| ensures columns[i] != columns[j] {
          if i == 0 { assert columns[j] in df.columns; }
        }
      }
      Success(Frame(None, seq(|df.rows|, i => Int(i)), columns, rows))
  }

  // ---------------------------------------------------------------- df[cols]

  /** The labels of `wanted` that are not columns of `have`, in order. */
  function Absent(wanted: seq<string>, have: seq<string>): (r: seq<string>)
    ensures forall c :: c in r <==> c in wanted && c !in have
  {
    if wanted == [] then []
    else (if wanted[0] in have then [] else [wanted[0]]) + Absent(wanted[1..], have)
  }

  /**
   * Column selection `df[cols]`: a frame holding exactly `cols`, in that
   * order, with the same index and rows; KeyError on absent labels.
   */
  function Select(df: Frame, cols: seq<string>): (r: Result<Frame, Error>)
    requires WellFormed(df) && Distinct(cols)
    ensures r.Failure? <==> exists c :: c in cols && c !in df.columns
    ensures r.Failure? ==> r.error == MissingColumns(Absent(cols, df.columns))
    ensures r.Success? ==>
      && WellFormed(r.value)
      && r.value.indexName == df.indexName && r.value.index == df.index
      && r.value.columns == cols
      && |r.value.rows| == |df.rows|
      && forall i, c :: 0 <= i < |df.rows| && c in cols ==> r.value.rows[i][c] == df.rows[i][c]
  {
    var missing := Absent(cols, df.columns);
    if missing != [] then
      assert missing[0] in missing;
      Failure(MissingColumns(missing))
    else
      var rows := seq(|df.rows|, i requires 0 <= i < |df.rows| => map c | c in cols && c in df.rows[i] :: df.rows[i][c]);
      Success(Frame(df.indexName, df.index, cols, rows))
  }

  // ---------------------------------------------------------------- df_to_table

  /** An HTML table: a header row of labels and a body of rows of cells. */
  datatype Table = Table(header: seq<string>, body: seq<seq<Value>>)

  /** `max_rows`'s default. */
  const DefaultMaxRows := 100

  /** `len(range(min(n, maxRows)))`: a negative limit renders no rows. */
  function RowLimit(n: nat, maxRows: int): (k: nat)
    ensures k <= n && k <= (if maxRows < 0 then 0 else maxRows)
    ensures k == n || k == maxRows || maxRows < 0
  {
    if maxRows <= 0 then 0 else if n < maxRows then n else maxRows
  }

  function RenderRow(row: Row, columns: seq<string>): seq<Value>
    requires forall c :: c in columns ==> c in row
  {
    seq(|columns|, j requires 0 <= j < |columns| => row[columns[j]])
  }

  /**
   * `df_to_table(df, max_rows)`: the header lists the frame's columns (not
   * its index) in order; the body holds the first `min(len(df), max_rows)`
   * rows, in order, one cell per header label holding that row's value.
   */
  function DfToTable(df: Frame, maxRows: int): (t: Table)
    requires WellFormed(df)
    ensures t.header == df.columns
    ensures |t.body| == RowLimit(|df.rows|, maxRows)
    ensures forall i :: 0 <= i < |t.body| ==> |t.body[i]| == |t.header|
    ensures forall i, j :: 0 <= i < |t.body| && 0 <= j < |t.header| ==> t.body[i][j] == df.rows[i][df.columns[j]]
  {
    var k := RowLimit(|df.rows|, maxRows);
    Table(df.columns, seq(k, i requires 0 <= i < k => RenderRow(df.rows[i], df.columns)))
  }

  /** Only the leading rows matter: frames that agree on columns and on those rows render alike. */
  lemma RenderDependsOnLeadingRows(df1: Frame, df2: Frame, maxRows: int)
    requires WellFormed(df1) && WellFormed(df2)
    requires df1.columns == df2.columns
    requires RowLimit(|df1.rows|, maxRows) == RowLimit(|df2.rows|, maxRows)
    requires forall i :: 0 <= i < RowLimit(|df1.rows|, maxRows) ==> df1.rows[i] == df2.rows[i]
    ensures DfToTable(df1, maxRows) == DfToTable(df2, maxRows)
  {
  }

  /** A larger row limit extends the body: a smaller one renders a prefix of it. */
  lemma RenderLimitMonotone(df: Frame, m1: int, m2: int)
    requires WellFormed(df) && m1 <= m2
    ensures DfToTable(df, m1).body <= DfToTable(df, m2).body
  {
  }
}
