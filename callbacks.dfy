/**
 * The three search callbacks: which component ids they listen to and write
 * to, the query text each sends, and which renderers receive the fetched
 * frame. The database is a parameter: the frame it returns for a text.
 */
module Callbacks {
  import opened Wrappers
  import opened Frames
  import opened JobsTable
  import opened JobsStats
  import opened Queries
  import opened Tabs

  /** What the database returns for a query text. */
  type Database = string -> Frame

  /** A callback's wiring: the button it fires on, the control it reads, the regions it writes. */
  datatype Binding = Binding(tab: Tab, trigger: string, state: string, outputs: seq<string>)

  const BoardsBinding := Binding(Boards, "boards-selection-btn", "boards-selection-dropdown", ["boards-query-table"])
  const JobsBinding := Binding(Jobs, "jobs-tsv-btn", "jobs-tsv-query", ["jobs-info-container", "jobs-query-table"])
  const CompaniesBinding := Binding(Companies, "companies-tsv-btn", "companies-tsv-query", ["companies-query-output"])

  /** Each callback listens to and writes into components of its own tab's layout. */
  predicate BoundWithinLayout(b: Binding) {
    && LayoutOf(b.tab).trigger == Some(b.trigger)
    && b.state in LayoutOf(b.tab).inputs
    && forall o :: o in b.outputs ==> o in LayoutOf(b.tab).regions
  }

  lemma BindingsWithinTheirLayouts()
    ensures BoundWithinLayout(BoardsBinding)
    ensures BoundWithinLayout(JobsBinding)
    ensures BoundWithinLayout(CompaniesBinding)
  {
  }

  /**
   * A control's value as an f-string renders it. A text box never typed
   * into, or a cleared dropdown, holds None, which becomes the text
   * "None"; a cleared text box holds the empty text.
   */
  function ValueText(value: Option<string>): (r: string)
    ensures value.Some? ==> r == value.value
    ensures r == "None" <==> value == None || value == Some("None")
  {
    match value
    case Some(s) => s
    case None => "None"
  }

  /** `on_boards_query_submit`: the chosen view, rendered by the generic table renderer only. */
  method OnBoardsQuerySubmit(boardSelection: Option<string>, db: Database) returns (query: string, table: Table)
    requires WellFormed(db(BoardsQuery(ValueText(boardSelection))))
    ensures query == BoardsQuery(ValueText(boardSelection))
    ensures table == DfToTable(db(query), DefaultMaxRows)
  {
    query := BoardsQuery(ValueText(boardSelection));
    var boards := db(query);
    table := DfToTable(boards, DefaultMaxRows);
  }

  /** What the jobs search writes: the stat row and the jobs table. */
  datatype JobsView = JobsView(stats: Stats, table: Table)

  /**
   * `on_jobs_query_submit`: one title search, whose frame feeds both the
   * stats and the jobs table; the first step that raises fails the whole
   * callback.
   */
  method OnJobsQuerySubmit(queryStr: Option<string>, db: Database) returns (query: string, view: Result<JobsView, Error>)
    requires WellFormed(db(JobsQuery(ValueText(queryStr))))
    ensures query == JobsQuery(ValueText(queryStr))
    ensures view.Success? <==> MakeJobsStats(db(query)).Success? && JobsTableOf(db(query), DefaultMaxRows).Success?
    ensures view.Success? ==>
      view.value == JobsView(MakeJobsStats(db(query)).value, JobsTableOf(db(query), DefaultMaxRows).value)
    ensures view.Failure? ==>
      view.error == if MakeJobsStats(db(query)).Failure? then MakeJobsStats(db(query)).error
                    else JobsTableOf(db(query), DefaultMaxRows).error
  {
    query := JobsQuery(ValueText(queryStr));
    var jobs := db(query);
    var stats := MakeJobsStats(jobs);
    if stats.Failure? {
      return query, Failure(stats.error);
    }
    var table := MakeJobsTable(jobs, DefaultMaxRows);
    if table.Failure? {
      return query, Failure(table.error);
    }
    view := Success(JobsView(stats.value, table.value));
  }

  /** `on_companies_query_submit`: one company search, rendered by the generic table renderer only. */
  method OnCompaniesQuerySubmit(queryStr: Option<string>, db: Database) returns (query: string, table: Table)
    requires WellFormed(db(CompaniesQuery(ValueText(queryStr))))
    ensures query == CompaniesQuery(ValueText(queryStr))
    ensures table == DfToTable(db(query), DefaultMaxRows)
  {
    query := CompaniesQuery(ValueText(queryStr));
    var companies := db(query);
    table := DfToTable(companies, DefaultMaxRows);
  }
}
