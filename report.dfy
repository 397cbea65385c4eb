/** The script from the fetch to the figure inputs: fetch every page,
    normalize the records, keep the current month's rows, group them by day
    and category, and derive the Sankey, pie and bar inputs. The clock's year
    and month are parameters. */
module Report {
  import opened Wrappers
  import opened Records
  import opened Fetch
  import opened Normalize
  import opened MonthFilter
  import opened Aggregate
  import opened Figures

  /** `df2` for the clock's year and month. */
  function MonthlyAggregate(rows: seq<ExpenseRow>, year: nat, month: nat): seq<AggRow> {
    GroupSum(FilterMonth(rows, year, month))
  }

  /** The inputs of the three figures. */
  datatype FigureInputs = FigureInputs(sankey: Sankey, pie: Series, bar: Series)

  function FiguresOf(rows: seq<ExpenseRow>, year: nat, month: nat): FigureInputs {
    var agg := MonthlyAggregate(rows, year, month);
    FigureInputs(SankeyOf(agg), CategorySeries(agg), CategorySeries(agg))
  }

  /** The month's aggregate is grouped (unique keys in order) and adds up to
      the amounts of exactly the rows dated in that month; in October it is
      empty. */
  lemma MonthlyAggregateCorrect(rows: seq<ExpenseRow>, year: nat, month: nat)
    requires 1 <= month <= 12
    ensures var agg := MonthlyAggregate(rows, year, month);
      && Ascending(agg)
      && AggKeys(agg) == RowKeys(if month == 10 then [] else RowsInMonth(rows, year, month))
      && TotalSum(agg) == (if month == 10 then 0 else AmountSum(RowsInMonth(rows, year, month)))
      && (month == 10 ==> agg == [])
  {
    FilterMonthIsRowsInMonth(rows, year, month);
    GroupSumKeys(FilterMonth(rows, year, month));
    GroupSumLossless(FilterMonth(rows, year, month));
  }

  /** The pie and the bar chart share out the month's spending: their
      values add up to the month's amounts (to nothing in October). */
  lemma ChartsAddUp(rows: seq<ExpenseRow>, year: nat, month: nat)
    requires 1 <= month <= 12
    ensures var f := FiguresOf(rows, year, month);
      && Sum(f.pie.amounts) == (if month == 10 then 0 else AmountSum(RowsInMonth(rows, year, month)))
      && f.bar == f.pie
  {
    var agg := MonthlyAggregate(rows, year, month);
    MonthlyAggregateCorrect(rows, year, month);
    CategorySeriesCorrect(agg);
  }

  /** In October every figure is empty, whatever was fetched. */
  lemma OctoberFiguresEmpty(rows: seq<ExpenseRow>, year: nat)
    ensures FiguresOf(rows, year, 10) == FigureInputs(Sankey([], [], [], []), Series([], []), Series([], []))
  {
    MonthlyAggregateCorrect(rows, year, 10);
  }

  /** Why a run stops before the figures: a malformed record, or no record
      at all, in which case the date column has no date type and the `.dt`
      accessor of the month filter raises. */
  datatype RunError = RecordFault(error: RecordError) | EmptyDateColumn

  /** Lines 45 to 98 of the script: `get_pages()`, the normalization loop,
      the month filter, the grouping and the figure inputs. */
  method BuildFigures(api: seq<Page<RawRecord>>, parseDate: string -> Option<CalendarDate>, year: nat, month: nat)
      returns (r: Result<FigureInputs, RunError>)
    requires |api| > 0 && Finishes(api)
    requires 1 <= month <= 12
    ensures var fetched := Flatten(api[..PagesConsumed(api, None)]);
      && (r.Success? <==> |fetched| > 0 && forall i :: 0 <= i < |fetched| ==> FaultOf(fetched[i], parseDate).None?)
      && (r.Success? ==> r.value == FiguresOf(ExtractAll(fetched, parseDate), year, month))
      && (r == Failure(EmptyDateColumn) <==> |fetched| == 0)
      && (r.Failure? && r.error.RecordFault? ==>
            var idx := r.error.error.index;
            && idx < |fetched|
            && FaultOf(fetched[idx], parseDate) == Some(r.error.error.fault)
            && forall j :: 0 <= j < idx ==> FaultOf(fetched[j], parseDate).None?)
    ensures r.Success? && month == 10 ==> r.value.sankey.labels == [] && r.value.pie.categories == []
  {
    var pages, requests := GetPages(api, None);
    var normalized := NormalizeAll(pages, parseDate);
    match normalized
    case Failure(e) =>
      r := Failure(RecordFault(e));
    case Success(table) =>
      if |pages| == 0 {
        return Failure(EmptyDateColumn);
      }
      r := Success(FiguresOf(Rows(table), year, month));
      OctoberFiguresEmpty(Rows(table), year);
  }
}
