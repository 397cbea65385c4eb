# Expense tracker: the data path from fetched pages to figure inputs

This project models the computational core of `expense_tracker.py`. The script
pages through a database query API, turns each returned record into an
expense row, keeps the rows of the current month, sums them by (day of month,
category), and builds the inputs of three figures:

- a Sankey flow diagram from days to categories;
- a pie chart;
- a bar chart.

The remote API is a finite sequence of responses. The date parser is a
function passed in. The clock's year and month are parameters.

Modules, in pipeline order:

- `Fetch`: `get_pages`, as a method with a loop. It records every request it
  posts: the first carries only `page_size`, each follow-up also carries
  `start_cursor`.
- `Records`: the raw record, the calendar date, the expense row, and the four
  parallel columns the script fills.
- `Normalize`: the loop that appends to the four lists. It aborts on the
  first malformed record.
- `Decimal`: `str(n)` for natural numbers.
- `MonthFilter`: the script's year-month key and the `%Y-%m` comparison. The
  script pads the month when `curr_month <= 10`, so October's key is `"010"`.
  No date ever renders that way, so October keeps no rows. The model keeps
  this behaviour as written and proves its consequence.
- `Aggregate`: `groupby([day, category]).sum()`. Keys are unique and sorted
  by day, then by category in code-point order. Each total is the sum of its
  key's amounts.
- `Figures`: the directed graph built from the aggregate, its node list, its
  edge traversal, the Sankey `label`/`source`/`target`/`value` lists, and the
  category/total columns used by the pie and bar charts.
- `Report`: the pipeline from `get_pages()` to the figure inputs.

Four behaviours of the script worth knowing:

- The month string is `"0" + str(curr_month)` whenever `curr_month <= 10`,
  so October's key is `"010"`, while `%m` renders October as `"10"`.
- The graph adds each row's day and then its category, so its nodes are the
  distinct elements of `day0, cat0, day1, cat1, …` in order of first
  appearance.
- The graph lists its edges node by node, each node's out-edges in the order
  they were added. `Figures.AdjacencyFollowsRows` proves this is row order
  because the aggregate is sorted by day.
- With no fetched record at all, the date column has no datetime type. The
  `.dt` accessor on line 62 then raises, so the run fails instead of drawing
  empty figures (`Report.RunError.EmptyDateColumn`).

## Model

| member | source | states |
|---|---|---|
| `Fetch.GetPages` | expense_tracker.py:20-42 | The number of requests equals the number of responses read. The results are the concatenation, in order, of those responses' results. The first request is a plain query with page size 100, or with `num_pages` when one is given. Request i+1 carries response i's `next_cursor`. When fetching all, every response read except the last says `has_more` and the last does not. With `num_pages` given, exactly one request is made and only the first page's results are returned, even if `has_more` is true. |
| `Fetch.FirstFinal` | expense_tracker.py:35 | The loop stops at the first response whose `has_more` is false: that response says false and every earlier one says true. |
| `Fetch.PagesConsumed` | expense_tracker.py:26-35 | The number of responses read is between 1 and the number the API has. |
| `Fetch.ReadsWholeFeed` | expense_tracker.py:26-41 | A feed of N responses where all but the last say `has_more` is read to its end: N requests, and every response's results are returned. |
| `Fetch.FlattenAt` | expense_tracker.py:34-40 | Result j of response k sits in the accumulated list at the combined size of the earlier responses plus j, so `extend` loses and reorders nothing. |
| `Normalize.NormalizeAll` | expense_tracker.py:46-53 | The run succeeds exactly when every record is well formed. On success, each of the four lists has one entry per record, in API order, holding that record's title text, amount, category text and parsed date. On failure, the error names the first malformed record and its first fault, in the order name, category, date. |
| `Records.FaultOf` | expense_tracker.py:50-53 | A record is faultless exactly when its title array and rich-text array are non-empty and its date string parses. |
| `Records.ExtractRow` | expense_tracker.py:50-53 | The expense row of a well-formed record: its first title run, its first category run, its amount and its parsed date. Its meaning for the whole feed is given by `Normalize.NormalizeAll`, whose rows equal `ExtractAll`. |
| `Records.ColumnsOfRows` | expense_tracker.py:60-61 | Building the data frame from the four columns loses nothing: the columns read back from its rows are the columns given. |
| `Records.Rows` | expense_tracker.py:60-61 | The data frame built from four equally long columns: row i holds entry i of each column. `ColumnsOfRows` and `RowsOfColumns` prove it is the inverse of reading the columns back. |
| `Records.RowsOfColumns` | expense_tracker.py:60-61 | The rows rebuilt from their own columns are the original rows: columns and rows are inverse views. |
| `Decimal.NatToStringInjective` | expense_tracker.py:58 | Different numbers have different `str` renderings, so comparing key strings compares years and months. |
| `Decimal.NatToString` | expense_tracker.py:56-62 | Python's `str(n)`: at least one character, all decimal digits, a single digit exactly when n is below 10. `NatToStringInjective` and `LeadingZeroOnlyForZero` give its meaning for the key comparison. |
| `Decimal.LeadingZeroOnlyForZero` | expense_tracker.py:58 | `str(n)` starts with `0` only when n is zero. |
| `MonthFilter.MonthStringMatchesStrftime` | expense_tracker.py:56-58 | The script's month string equals the `%m` rendering exactly when the month is not October. For October it is `"010"`. |
| `MonthFilter.MonthString` | expense_tracker.py:56-58 | The script's month string: `"0"` before `str(month)` when the month is at most 10. Its meaning against `%m` is `MonthStringMatchesStrftime`. |
| `MonthFilter.Pad2` | expense_tracker.py:62 | The `%m` of `strftime('%Y-%m')`: the month zero-padded to two digits. `Pad2Injective` and `MonthStringMatchesStrftime` give its meaning. |
| `MonthFilter.MonthKey` | expense_tracker.py:56-62 | The key `str(year) + "-" + month string` the rows are compared with. Its meaning is `KeyMatchIff`. |
| `MonthFilter.YearMonth` | expense_tracker.py:62 | A date's `strftime('%Y-%m')`: the year, a dash, the two-digit month. Which dates match a key is `KeyMatchIff`. |
| `MonthFilter.KeyMatchIff` | expense_tracker.py:56-62 | A date's `%Y-%m` equals the script's key exactly when the month is not October and the date lies in the given year and month. |
| `MonthFilter.FilterMonthIsRowsInMonth` | expense_tracker.py:62 | The filter equals the numeric reference selection of the rows of that year and month, in their original order. In October it is empty. |
| `MonthFilter.FilterMonth` | expense_tracker.py:62 | The boolean mask: the rows whose `%Y-%m` equals the key, in order. Its meaning is `FilterMonthIsRowsInMonth`. |
| `MonthFilter.RowsInMonthSelects` | expense_tracker.py:62 | The reference selection holds exactly the input rows dated in that year and month, and never more rows than the input. |
| `MonthFilter.RowsInMonthAppend` | expense_tracker.py:62 | Filtering a concatenation of rows gives the concatenation of the two filtered parts, so the selection keeps the rows in their input order. |
| `Aggregate.GroupSum` | expense_tracker.py:64 | The grouped rows are strictly ascending by (day, category), so no key repeats and the output is sorted. There are never more groups than rows, and no group exactly when there is no row. |
| `Aggregate.GroupSumCorrect` | expense_tracker.py:64 | Keys are unique and in (day, category) order. The keys are exactly those of the input rows. Each total is the sum of the amounts of the rows with its key. The totals add up to the sum of all amounts. |
| `Aggregate.GroupSumLossless` | expense_tracker.py:64 | The sum of all totals equals the sum of the amounts of the grouped rows. |
| `Aggregate.GroupSumKeys` | expense_tracker.py:64 | The set of aggregate keys is the set of (day, category) pairs of the input rows. |
| `Aggregate.GroupSumTotals` | expense_tracker.py:64 | Each aggregate row's total is the sum of the amounts of the input rows sharing its key. |
| `Aggregate.AscendingKeysUnique` | expense_tracker.py:64 | In an ascending aggregate no two rows share a (day, category) key. |
| `Aggregate.StrLess` | expense_tracker.py:64 | The order of the sorted groupby's category level: lexicographic by code point. `StrLessIrreflexive`, `StrLessTrichotomy` and `StrLessTransitive` make it a strict total order. |
| `Aggregate.KeyLess` | expense_tracker.py:64 | The order of the groupby's (day, category) keys: by day, then by category. `KeyLessIrreflexive`, `KeyLessTrichotomy` and `KeyLessTransitive` make it a strict total order. |
| `Aggregate.GroupSumExample` | expense_tracker.py:64 | Food 10 and Food 5 on day 1 and Transport 20 on day 2 group to Food 15 on day 1 and Transport 20 on day 2. |
| `Figures.SankeyCorrect` | expense_tracker.py:67-81 | The node labels are distinct, and they are exactly the aggregate's days and categories. `source`, `target` and `value` have one entry per aggregate row, in row order. Link i's source index points at its day's label, its target index at its category's label, and its value is its total. |
| `Figures.Nodes` | expense_tracker.py:67-76 | `list(G.nodes())`: the distinct endpoints in order of first appearance. Its meaning is `DedupFirstAppearance` and the label clauses of `SankeyCorrect`. |
| `Figures.GraphEdges` | expense_tracker.py:67-81 | `G.edges(data=True)`: each node's out-edges, node by node. `AdjacencyFollowsRows` proves this is one edge per aggregate row, in row order. |
| `Figures.SankeyOf` | expense_tracker.py:76-81 | The Sankey `label`, `source`, `target` and `value` lists from the node list and the edges. Its meaning is `SankeyCorrect`. |
| `Figures.AdjacencyFollowsRows` | expense_tracker.py:67-81 | When the days are sorted, traversing the graph node by node yields one edge per aggregate row, in row order. After the last row's day node, only category nodes follow. |
| `Figures.DedupFirstAppearance` | expense_tracker.py:67-76 | The node list keeps the order in which the graph first met each endpoint. |
| `Figures.EdgeEndpointsAreNodes` | expense_tracker.py:79-80 | Both ends of every traversed edge are in the node list, so `list.index` always finds them. |
| `Figures.IndexOf` | expense_tracker.py:79-80 | `list.index`: a position holding the value, with no earlier position holding it, so it is the first occurrence. `EdgeEndpointsAreNodes` proves its precondition at every use. |
| `Figures.CategorySeriesCorrect` | expense_tracker.py:95-98 | The pie and the bar inputs hold one label/value entry per aggregate row, labelled by its category and sized by its total; the inputs are not merged across days. The values add up to the aggregate's total. |
| `Figures.CategorySeries` | expense_tracker.py:95-98 | The `category` and `total` columns of the aggregate, given to the pie and the bar. Its meaning is `CategorySeriesCorrect`. |
| `Report.MonthlyAggregateCorrect` | expense_tracker.py:56-64 | The month's aggregate is ascending. Its keys are those of the rows dated in that month, and its totals add up to their amounts. In October it is empty. |
| `Report.MonthlyAggregate` | expense_tracker.py:62-64 | The month filter followed by the grouped sum. Its meaning is `MonthlyAggregateCorrect`. |
| `Report.FiguresOf` | expense_tracker.py:62-98 | The Sankey, pie and bar inputs of the month's aggregate. Its meaning is `ChartsAddUp` and `OctoberFiguresEmpty`, with `SankeyCorrect` and `CategorySeriesCorrect`. |
| `Report.ChartsAddUp` | expense_tracker.py:62-98 | The pie values add up to the month's spending, or to 0 in October. The bar chart gets the same columns as the pie. |
| `Report.OctoberFiguresEmpty` | expense_tracker.py:56-98 | In October every figure input is empty, whatever was fetched. |
| `Report.BuildFigures` | expense_tracker.py:45-98 | The run succeeds exactly when at least one record was fetched and every fetched record is well formed. Its figures are then those of the fetched records' rows. No record at all fails with the date-column error. A record fault names the first malformed fetched record and its fault. In October a successful run has no Sankey labels and no pie slices. |

## Left out

- HTTP and JSON (lines 24, 30, 32, 37-39): the API is a sequence of responses, so non-success statuses, malformed bodies and bodies without `results` or `has_more` are not modelled.
- The API serves its responses in order and does not look at the request. The logged requests show what the script sends; the server's use of `start_cursor` is not modelled.
- The model requires some response to say `has_more` is false when fetching all. An API that never did would keep the script looping forever.
- `page_size` is passed through unchecked. The API's answer to an invalid size is not modelled.
- Date parsing (line 53) is the `parseDate` parameter, standing for `strptime` with `"%Y-%m-%d"`. Its exact format rules are not modelled; it yields a valid calendar date or nothing.
- The data frame's nanosecond date range (years 1677 to 2262) is not modelled.
- The clock (`datetime.now()`, lines 56 and 62) is the `year` and `month` parameters. The script reads the clock twice, the month on line 56 and the year on line 62; the model takes both from one instant, so a run whose two reads straddle midnight on 31 December, where the script would compare with `"<next year>-12"`, is not modelled.
- `%Y` is modelled as the unpadded decimal year, which is what it gives for years of four digits.
- Record properties are modelled as their arrays and values. A missing dictionary key (a `KeyError`) or a wrongly typed property is not modelled; only empty title and rich-text arrays and unparsable dates are faults.
- Amounts are integers. A float amount, or a JSON `null` amount (which the data frame would hold as NaN and the sum would skip), is not modelled.
- The directed graph merges repeated (day, category) pairs into one edge. The model does not merge, and `Figures.GraphEdges` requires an ascending aggregate, where no pair repeats.
- Graph library internals beyond node order and edge traversal order are not modelled.
- Plotly's pie sums entries with equal labels when it draws, and its bar chart draws equal categories at one position; the merged slices are not modelled.
- Plotly figure construction, styling and `to_html` (lines 70-98, 118-126) are a foreign rendering library.
- The report's month name and file name (lines 100-102) are not modelled, since `%B` is a locale-dependent clock rendering.
- HTML writing and the tab-switching script (lines 104-146) are fixed output and client-side code.
- Email composition, the SMTP session and `os.remove` (lines 147-181) are I/O and external services.
