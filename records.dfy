/** The data model of the expense tracker: raw query-API records, calendar
    dates, normalized expense rows and the four parallel columns the script
    builds before it creates its data frame. */
module Records {
  import opened Wrappers

  /** A year, month and day as `datetime` keeps them. */
  datatype Date = Date(year: nat, month: nat, day: nat)

  predicate IsLeapYear(y: nat) {
    (y % 4 == 0 && y % 100 != 0) || y % 400 == 0
  }

  function DaysInMonth(y: nat, m: nat): nat
    requires 1 <= m <= 12
  {
    if m == 2 then (if IsLeapYear(y) then 29 else 28)
    else if m == 4 || m == 6 || m == 9 || m == 11 then 30
    else 31
  }

  predicate ValidDate(d: Date) {
    1 <= d.year <= 9999 && 1 <= d.month <= 12 && 1 <= d.day <= DaysInMonth(d.year, d.month)
  }

  /** The dates a `datetime` can hold: what a successful parse yields. */
  type CalendarDate = d: Date | ValidDate(d) witness Date(1, 1, 1)

  /** The properties of one query-API page that the script reads: the text
      runs of the `Name` title, the `Amount` number, the plain-text runs of
      the `Category` rich text and the `start` string of the `Date`. */
  datatype RawRecord = RawRecord(
    titleRuns: seq<string>,
    amount: int,
    categoryRuns: seq<string>,
    dateStart: string)

  /** What makes a record abort the run: an empty title or rich-text array
      (an index error on `[0]`) or a date string the parser refuses. */
  datatype Fault = MissingName | MissingCategory | BadDate

  datatype RecordError = RecordError(index: nat, fault: Fault)

  /** The first fault of a record, in the order the script touches the
      properties (name, amount, category, date); `None` if it is well formed. */
  function FaultOf(rec: RawRecord, parseDate: string -> Option<CalendarDate>): (f: Option<Fault>)
    ensures f == None <==> |rec.titleRuns| > 0 && |rec.categoryRuns| > 0 && parseDate(rec.dateStart).Some?
  {
    if |rec.titleRuns| == 0 then Some(MissingName)
    else if |rec.categoryRuns| == 0 then Some(MissingCategory)
    else if parseDate(rec.dateStart).None? then Some(BadDate)
    else None
  }

  /** One row of the data frame. */
  datatype ExpenseRow = ExpenseRow(name: string, category: string, amount: int, date: CalendarDate)

  /** The row a well-formed record contributes. */
  function ExtractRow(rec: RawRecord, parseDate: string -> Option<CalendarDate>): ExpenseRow
    requires FaultOf(rec, parseDate).None?
  {
    ExpenseRow(rec.titleRuns[0], rec.categoryRuns[0], rec.amount, parseDate(rec.dateStart).value)
  }

  /** The rows of a sequence of well-formed records, in order. */
  function ExtractAll(recs: seq<RawRecord>, parseDate: string -> Option<CalendarDate>): seq<ExpenseRow>
    requires forall i :: 0 <= i < |recs| ==> FaultOf(recs[i], parseDate).None?
  {
    seq(|recs|, i requires 0 <= i < |recs| => ExtractRow(recs[i], parseDate))
  }

  /** The four parallel lists `names`, `categories`, `expenses` and
      `createdDates`. */
  datatype Table = Table(
    names: seq<string>,
    categories: seq<string>,
    expenses: seq<int>,
    dates: seq<CalendarDate>)

  /** The four columns have one entry per row; the data frame constructor
      refuses columns of different lengths. */
  predicate Rectangular(t: Table) {
    |t.names| == |t.categories| == |t.expenses| == |t.dates|
  }

  /** The rows of the data frame built from the columns, row i from entry i
      of every column. */
  function Rows(t: Table): (rows: seq<ExpenseRow>)
    requires Rectangular(t)
    ensures |rows| == |t.names|
    ensures forall i :: 0 <= i < |rows| ==>
      rows[i].name == t.names[i] && rows[i].category == t.categories[i] &&
      rows[i].amount == t.expenses[i] && rows[i].date == t.dates[i]
  {
    seq(|t.names|, i requires 0 <= i < |t.names| =>
      ExpenseRow(t.names[i], t.categories[i], t.expenses[i], t.dates[i]))
  }

  /** The columns of a sequence of rows. */
  function Columns(rows: seq<ExpenseRow>): (t: Table)
    ensures Rectangular(t) && |t.names| == |rows|
  {
    Table(
      seq(|rows|, i requires 0 <= i < |rows| => rows[i].name),
      seq(|rows|, i requires 0 <= i < |rows| => rows[i].category),
      seq(|rows|, i requires 0 <= i < |rows| => rows[i].amount),
      seq(|rows|, i requires 0 <= i < |rows| => rows[i].date))
  }

  /** Building the frame loses nothing: the columns can be read back. */
  lemma ColumnsOfRows(t: Table)
    requires Rectangular(t)
    ensures Columns(Rows(t)) == t
  {
  }

  /** ... and the rows read back from their columns are the same rows. */
  lemma RowsOfColumns(rows: seq<ExpenseRow>)
    ensures Rows(Columns(rows)) == rows
  {
  }
}
