/** The record normalizer: the loop that reads the four properties of every
    fetched record and appends them to four parallel lists. */
module Normalize {
  import opened Wrappers
  import opened Records

  /** Normalizes the fetched records in order. The date parser is passed in:
      it stands for `strptime(..., "%Y-%m-%d")` and yields `None` where that
      raises. The first malformed record aborts the run. */
  method NormalizeAll(pages: seq<RawRecord>, parseDate: string -> Option<CalendarDate>)
      returns (r: Result<Table, RecordError>)
    ensures r.Success? <==> forall i :: 0 <= i < |pages| ==> FaultOf(pages[i], parseDate).None?
    ensures r.Success? ==>
      && Rectangular(r.value)
      && |r.value.names| == |pages|
      && forall i :: 0 <= i < |pages| ==>
           && r.value.names[i] == pages[i].titleRuns[0]
           && r.value.expenses[i] == pages[i].amount
           && r.value.categories[i] == pages[i].categoryRuns[0]
           && r.value.dates[i] == parseDate(pages[i].dateStart).value
    ensures r.Success? ==> Rectangular(r.value) && Rows(r.value) == ExtractAll(pages, parseDate)
    ensures r.Failure? ==>
      && r.error.index < |pages|
      && FaultOf(pages[r.error.index], parseDate) == Some(r.error.fault)
      && forall j :: 0 <= j < r.error.index ==> FaultOf(pages[j], parseDate).None?
  {
    var names: seq<string> := [];
    var expenses: seq<int> := [];
    var categories: seq<string> := [];
    var dates: seq<CalendarDate> := [];
    for i := 0 to |pages|
      invariant |names| == |expenses| == |categories| == |dates| == i
      invariant forall j :: 0 <= j < i ==>
        && FaultOf(pages[j], parseDate).None?
        && names[j] == pages[j].titleRuns[0]
        && expenses[j] == pages[j].amount
        && categories[j] == pages[j].categoryRuns[0]
        && dates[j] == parseDate(pages[j].dateStart).value
    {
      var props := pages[i];
      if |props.titleRuns| == 0 {
        return Failure(RecordError(i, MissingName));
      }
      names := names + [props.titleRuns[0]];
      expenses := expenses + [props.amount];
      if |props.categoryRuns| == 0 {
        return Failure(RecordError(i, MissingCategory));
      }
      categories := categories + [props.categoryRuns[0]];
      var parsed := parseDate(props.dateStart);
      if parsed.None? {
        return Failure(RecordError(i, BadDate));
      }
      dates := dates + [parsed.value];
    }
    r := Success(Table(names, categories, expenses, dates));
  }
}
