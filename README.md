# Jobs dashboard: the data shaping behind the views

A Dafny model of the part of the jobs dashboard (`joboffers_dashboard.py`) that
shapes data once a query has returned: the four-tab router, the query text the
three search callbacks send, and the steps that turn a fetched pandas frame
into what the page shows. Those steps are the generic HTML table
(`df_to_table`), the jobs table (`make_jobs_table_row`) and the figures of the
jobs stat row (`make_jobs_stats_row`).

The fetched frame is a value (`Frames.Frame`) with these parts:

- an optional index name and the index values;
- an ordered list of column labels;
- one row per index entry, mapping each label to a cell.

A cell is text, an integer, a missing value or a timestamp (reduced to its
date). `WellFormed` states what the model assumes of every fetched frame: one
index entry per row, unique column labels, and every row holding exactly the
columns. pandas itself allows repeated labels; the model does not (see
"Left out"). The searches read from the
frame with `subm_date` as its index. So `df_to_table` never shows the date for
the boards and companies views: it renders columns only. The jobs table first
turns the index back into a column.

Modules, one per concern:

- `Wrappers`: `Option` and `Result`. A `Failure` stands for a pandas exception.
- `Dates`: dates and their `%Y-%m-%d` text, with the parse that inverts it.
- `Frames`: the frame, `reset_index`, column selection `df[cols]`, and `df_to_table`.
- `JobsTable`: `make_jobs_table_row`. It is a specification function
  (`JobsTableOf`) plus the step-by-step method (`MakeJobsTable`), which
  rewrites the date column in place row by row (`FormatDatesInPlace`).
- `JobsStats`: the counting and averaging of `make_jobs_stats_row`.
- `Queries`: the SQL text of the three searches, and how PostgreSQL reads the keyword's string literal.
- `Tabs`: the router and the component ids of each tab's layout.
- `Callbacks`: the three search callbacks. The database is a parameter
  (`Database = string -> Frame`).

What the code does, and so the model, in places where one might expect more:

- The jobs view has no monthly chart (the chart is a placeholder string) and no
  link column.
- Keywords are pasted into the SQL text, not bound as parameters.
- A failing step raises out of the callback; no error indicator is placed in
  the region.
- There is no guard against out-of-order callback completion.

## Model

| member | source | states |
|---|---|---|
| `Dates.FormatDate` | joboffers_dashboard.py:227 | the `%Y-%m-%d` text of a date is ten characters, with dashes at positions 4 and 7 and digits elsewhere (zero-padded year, month, day) |
| `Dates.ParseFormattedDate` | joboffers_dashboard.py:227 | reading the rendered text back gives the original date, so no date information is lost |
| `Dates.FormatParsedDate` | joboffers_dashboard.py:227 | every well-formed `YYYY-MM-DD` text is the rendering of the date it denotes (the other direction of the round trip) |
| `Dates.FormatDateInjective` | joboffers_dashboard.py:227 | two different dates never render to the same text |
| `Frames.ResetIndex` | joboffers_dashboard.py:226 | `reset_index` puts the index first as a column named by pandas' rule (index name, else `index`, else `level_0`) and gives a fresh 0..n-1 index; every other cell is kept; it fails exactly when that label is already a column |
| `Frames.Select` | joboffers_dashboard.py:230 | `df[cols]` gives exactly `cols` in that order with the same rows and values; it fails exactly when a label is absent, and reports the absent labels in order |
| `Frames.RowLimit` | joboffers_dashboard.py:256 | the number of rows rendered is `min(n, max_rows)`; a negative limit renders none, as `range` does |
| `Frames.DfToTable` | joboffers_dashboard.py:246-259 | the header is the frame's column list in order; the body has `min(rows, max_rows)` rows, the leading rows in input order, each with one cell per header label holding that row's unchanged value |
| `Frames.RenderDependsOnLeadingRows` | joboffers_dashboard.py:253-257 | frames with the same columns and the same leading rows render to the same table: rows past the limit never reach the page |
| `Frames.RenderLimitMonotone` | joboffers_dashboard.py:246 | a smaller `max_rows` renders a prefix of what a larger one renders |
| `JobsTable.FormatCell` | joboffers_dashboard.py:227 | one element of `.dt.strftime`: a timestamp becomes ISO text that parses back to its date; a missing timestamp stays missing |
| `JobsTable.FormatDateColumn` | joboffers_dashboard.py:227 | the column assignment reformats every cell of the date column and changes no other cell, label or index; it fails exactly when some cell is not datetime-like |
| `JobsTable.FormatDatesInPlace` | joboffers_dashboard.py:227 | the row-by-row overwrite of the date column (a loop with invariants) yields exactly `FormatDateColumn` |
| `JobsTable.JobsTableOf` | joboffers_dashboard.py:225-243 | a rendered jobs table has exactly the header `subm_date, job_id, job_title, company, job_location, salary, norm_salary` and `min(rows, max_rows)` body rows |
| `JobsTable.JobsTableSucceedsIff` | joboffers_dashboard.py:226-230 | the jobs table renders exactly when the index label is not already a column, all seven job columns exist after the reset, and every date is datetime-like; other columns do not matter |
| `JobsTable.JobsTableCells` | joboffers_dashboard.py:227-240 | cell (i, j) of the jobs table is row i's value for job column j: the formatted date in the first column, the untouched value in the other six |
| `JobsTable.JobsTableDateCells` | joboffers_dashboard.py:238-240 | each row's first cell is ten-character `YYYY-MM-DD` text with dashes at 4 and 7 that reads back as that row's date, or missing when the date is missing |
| `JobsTable.MakeJobsTable` | joboffers_dashboard.py:225-243 | the stepwise method (reset, overwrite the date column, select, render) returns exactly `JobsTableOf`, failures included |
| `JobsStats.SalaryMask` | joboffers_dashboard.py:174 | `notnull()` gives one flag per row, set exactly where the row's salary is present |
| `JobsStats.SetPositions` | joboffers_dashboard.py:174 | the positions a boolean mask selects: increasing, each within the mask, and holding a position exactly when the mask is set there |
| `JobsStats.SalaryOnly` | joboffers_dashboard.py:174 | the `notnull` filter never gives more rows than it was given, and each row it gives has the salary column |
| `JobsStats.SalaryOnlyTakesMaskedRows` | joboffers_dashboard.py:174 | the filter gives exactly the rows at the positions the salary mask sets, in their original order and with repeats kept: as many rows as there are salaries |
| `JobsStats.MakeJobsStats` | joboffers_dashboard.py:173-177 | the total count is the number of rows; the salaried count is the number of rows the `notnull` mask sets and is at most the total; the average is the mean of the salary sum over the salaried count, present exactly when that count is positive; it fails exactly when `norm_salary` is missing or a salary is not numeric |
| `JobsStats.Mean` | joboffers_dashboard.py:177 | the mean of no values is absent (pandas' NaN); otherwise it is the value that, times the count, gives the sum |
| `JobsStats.SalarySumOfSalaryOnly` | joboffers_dashboard.py:174-177 | summing over the salaried subset equals summing the salaries present, so the mean is over that subset only |
| `JobsStats.SalarySumBounds` | joboffers_dashboard.py:177 | salaries between lo and hi sum to between lo and hi times the salaried count |
| `JobsStats.AverageWithinBounds` | joboffers_dashboard.py:177 | the average salary lies between any lower and upper bound of the salaries present |
| `JobsStats.RowWithoutSalary` | joboffers_dashboard.py:174-177 | a further row without a salary leaves the salaried rows and the salary sum unchanged |
| `JobsStats.ThreeJobsExample` | joboffers_dashboard.py:173-177 | salaries 1000, missing and 2000 give 3 results, 2 with salary, average 1500 |
| `Queries.BoardsQuery` | joboffers_dashboard.py:287 | the boards query is `select * from ` followed by the selected view name verbatim |
| `Queries.KeywordCall` | joboffers_dashboard.py:301 | a search query (`JobsQuery` with `f_offers_by_title_kw`, `CompaniesQuery` with `f_offers_by_company_kw`) is `select * from fn('` then the keyword verbatim then `')` |
| `Queries.JobsQuery` | joboffers_dashboard.py:301 | the title search's text is long enough to hold the call prefix, and a keyword without a single quote reaches `f_offers_by_title_kw` as its whole argument, followed only by `)` |
| `Queries.CompaniesQuery` | joboffers_dashboard.py:318 | the company search's text is long enough to hold the call prefix, and a keyword without a single quote reaches `f_offers_by_company_kw` as its whole argument, followed only by `)` |
| `Queries.KeywordCallInjective` | joboffers_dashboard.py:318 | different keywords give different query text |
| `Queries.BoardViewsGiveDistinctQueries` | joboffers_dashboard.py:76-87 | the three views the boards dropdown offers give three different queries |
| `Queries.JobsAndCompaniesQueriesDiffer` | joboffers_dashboard.py:301 | a title search never sends the same text as a company search |
| `Queries.ArgumentIsKeywordIffNoQuote` | joboffers_dashboard.py:318 | with PostgreSQL's reading of string literals (a doubled quote stands for one, a single quote ends the literal), the database reads the whole keyword as the function's argument, with only `)` after it, exactly when the keyword contains no single quote |
| `Queries.QuoteInKeywordEscapesLiteral` | joboffers_dashboard.py:301 | a keyword made of quote-free text, then a single quote, then a character that is neither a quote nor the start of whitespace or a comment (such as `x'); drop table jobs; --`) gives the search function only the text before the quote; everything after that quote, plus the closing `')`, is read as SQL |
| `Queries.DoubledQuoteInKeyword` | joboffers_dashboard.py:301 | a keyword with a doubled quote between quote-free texts (such as `a''b`) reaches the search function with that quote single (`a'b`) |
| `Queries.TrailingQuoteLeavesLiteralOpen` | joboffers_dashboard.py:301 | a keyword of quote-free text ending in one unpaired quote (such as `x'`) makes that quote pair with the call's closing quote: the literal never ends and the database reads no argument at all |
| `Tabs.LayoutOf` | joboffers_dashboard.py:54-170 | each tab's layout as built: the home tab has no control and no button, and each other tab has both |
| `Tabs.LayoutIdsCarryPrefix` | joboffers_dashboard.py:64-170 | every control, button and placeholder-region id of a tab's layout starts with that tab's prefix (`boards-`, `jobs-`, `companies-`) |
| `Tabs.CorrectedLayoutOf` | joboffers_dashboard.py:155-170 | the intended layouts keep each tab's controls, button and set of region ids, and differ from the built ones only by not repeating a region |
| `Tabs.OnTabsTabSelection` | joboffers_dashboard.py:327-335 | the router gives a layout exactly for the four tab values and then the layout that tab's `make_*_tab` builds (for the companies tab, the one with the repeated region); any other value gives none |
| `Tabs.SelectingATabShowsItsLayout` | joboffers_dashboard.py:19-51 | selecting each tab of the tab strip shows its own layout, and the initial tab `hometab` shows the home layout |
| `Tabs.LayoutsDistinct` | joboffers_dashboard.py:54-170 | the four layouts are pairwise different |
| `Tabs.LayoutIdsDisjoint` | joboffers_dashboard.py:54-170 | no component id belongs to the layouts of two different tabs |
| `Tabs.CompaniesLayoutRepeatsRegion` | joboffers_dashboard.py:155-170 | the layout the router shows for the companies tab declares the id `companies-query-output` twice |
| `Tabs.LayoutRegionsDistinct` | joboffers_dashboard.py:54-170 | in the corrected layouts no region id occurs twice |
| `Callbacks.BindingsWithinTheirLayouts` | joboffers_dashboard.py:281-314 | each callback's trigger button, state control and output regions belong to the layout of its own tab |
| `Callbacks.ValueText` | joboffers_dashboard.py:287 | a control's value in an f-string is its text; the query text reads `None` exactly when the control holds no value (a text box never typed into, a cleared dropdown) or holds the text `None` |
| `Callbacks.OnBoardsQuerySubmit` | joboffers_dashboard.py:281-290 | the boards callback sends the boards query for the selected view (`select * from None` when the dropdown is cleared) and renders the fetched frame only with `df_to_table` at 100 rows |
| `Callbacks.OnJobsQuerySubmit` | joboffers_dashboard.py:294-308 | the jobs callback sends the title search for the keyword (a box never typed into sends `None`, which reads as the text `None`; a cleared box sends the empty keyword). It feeds the same fetched frame to the stats and to the jobs table at 100 rows. It fails with the first failing step's error, stats first |
| `Callbacks.OnCompaniesQuerySubmit` | joboffers_dashboard.py:312-321 | the companies callback sends the company search for the keyword and renders the fetched frame only with `df_to_table` at 100 rows |

## Findings

| source | as written | input that shows it | evidently intended | confidence | as-written member | corrected member |
|---|---|---|---|---|---|---|
| joboffers_dashboard.py:166-168 | the companies tab declares two Divs with the id `companies-query-output`, one inside the loading spinner and one beside it | selecting the companies tab puts both into one page; the companies callback's output id is then ambiguous | one output region with that id, inside the spinner, as the boards tab does | medium, not executed | `Tabs.CompaniesLayoutRepeatsRegion` (on `Tabs.LayoutOf`, which the router uses) | `Tabs.LayoutRegionsDistinct` (on `Tabs.CorrectedLayoutOf`) |

## Left out

- Database access is not modelled: the connection, `pd.read_sql_query` and its errors. The fetched frame is the value of the `Database` parameter, with `subm_date` already its index.
- `pd.to_datetime` on the index is not modelled. Timestamps arrive as `Timestamp` cells; any other value in the date column is the `.dt` failure.
- Credentials from the environment and the app and server startup are left out: they are configuration, not data shaping.
- Layout construction is reduced to each tab's control ids, its button id and the ids of its empty placeholder Divs. Left out are the header, the tab strip markup, the tabs' other Divs and CSS classes, and the stat-card HTML with its text.
- Tabs.LayoutIdsCarryPrefix: the ids of the `dcc.Loading` wrappers (`boards-selection-loading`, `loading-companies`) and of the `companies-filter` Div are not kept. `loading-companies` does not start with `companies-`, so the prefix rule holds only for the ids the model keeps. No id is shared between tabs in the full list either.
- The `n_clicks` argument is not modelled: no callback reads it.
- Dash's callback scheduling is not modelled: when a callback fires, and the order in which overlapping results land.
- The `Result` values are pandas exceptions. How Dash then reports them is not modelled.
- JobsStats.MakeJobsStats: salaries are integers and the average is an exact real. Floating-point `mean()` and `round(..., 2)` are not modelled.
- Frames.WellFormed: frames with duplicate column labels are excluded, since a row as a map cannot hold them. The searches' frames have unique labels.
- Timestamps are reduced to their date. The time of day is not modelled: `strftime('%Y-%m-%d')` drops it, so two timestamps of one day render alike, which the model cannot show.
- Queries.QuoteInKeywordEscapesLiteral: PostgreSQL joins two literals separated only by whitespace (or comments) holding a newline, so a keyword such as `x'⏎'y` (⏎ a newline) reaches the function as `xy`. The literal reader does not model that joining, so the lemma requires the character after the quote not to start whitespace or a comment.
- Queries.ArgumentIsKeywordIffNoQuote: PostgreSQL's literal reading is modelled for quotes only, with standard conforming strings (a backslash is an ordinary character). `E'...'` escapes, dollar quoting and what the SQL after the literal then does are not modelled.
- Dates: a day may be any of 1..31 without a check against the month's length. Years are 0..9999, which contains pandas' timestamp range.
