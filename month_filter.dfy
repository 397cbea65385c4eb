/** The current-month filter: the script's year-month key string and the
    selection of the rows whose date has that `%Y-%m` rendering. */
module MonthFilter {
  import opened Decimal
  import opened Records

  /** `date.strftime('%m')` for a month 1..12: two digits, zero padded. */
  function Pad2(n: nat): string {
    if n < 10 then "0" + NatToString(n) else NatToString(n)
  }

  /** The month string as the script computes it: it prefixes "0" whenever
      `curr_month <= 10`, so October becomes "010". */
  function MonthString(month: nat): string {
    if month <= 10 then "0" + NatToString(month) else NatToString(month)
  }

  /** The key `f'{year}-{str(curr_month)}'` the rows are compared with. */
  function MonthKey(year: nat, month: nat): string {
    NatToString(year) + "-" + MonthString(month)
  }

  /** `date.strftime('%Y-%m')`; a year of the four-digit range renders as
      `str(year)` does. */
  function YearMonth(d: CalendarDate): string {
    NatToString(d.year) + "-" + Pad2(d.month)
  }

  /** The rows whose `%Y-%m` rendering equals the script's key, in order. */
  function FilterMonth(rows: seq<ExpenseRow>, year: nat, month: nat): seq<ExpenseRow> {
    if rows == [] then []
    else
      (if YearMonth(rows[0].date) == MonthKey(year, month) then [rows[0]] else [])
      + FilterMonth(rows[1..], year, month)
  }

  /** Reference definition: the rows dated in the given year and month, in
      order, compared as numbers. */
  function RowsInMonth(rows: seq<ExpenseRow>, year: nat, month: nat): seq<ExpenseRow> {
    if rows == [] then []
    else
      (if rows[0].date.year == year && rows[0].date.month == month then [rows[0]] else [])
      + RowsInMonth(rows[1..], year, month)
  }

  lemma Pad2Length(n: nat)
    requires 1 <= n <= 12
    ensures |Pad2(n)| == 2
  {
    if n >= 10 { TwoDigitLength(n); }
  }

  lemma Pad2Injective(a: nat, b: nat)
    requires 1 <= a <= 12 && 1 <= b <= 12
    requires Pad2(a) == Pad2(b)
    ensures a == b
  {
    if a < 10 && b < 10 {
      assert NatToString(a) == Pad2(a)[1..] == Pad2(b)[1..] == NatToString(b);
      NatToStringInjective(a, b);
    } else if a >= 10 && b >= 10 {
      NatToStringInjective(a, b);
    } else if a < 10 {
      LeadingZeroOnlyForZero(b);
    } else {
      LeadingZeroOnlyForZero(a);
    }
  }

  /** The script's month string equals the `%m` rendering for every month
      but October, where it is "010". */
  lemma MonthStringMatchesStrftime(month: nat)
    requires 1 <= month <= 12
    ensures MonthString(month) == Pad2(month) <==> month != 10
    ensures month == 10 ==> MonthString(month) == "010"
  {
    if month == 10 {
      assert NatToString(10) == NatToString(1) + [DigitChar(0)];
      assert MonthString(10) == "010";
      Pad2Length(10);
    }
  }

  /** A date matches the script's key exactly when it lies in that year and
      month, and never in October. */
  lemma {:induction false} KeyMatchIff(d: CalendarDate, year: nat, month: nat)
    requires 1 <= month <= 12
    ensures YearMonth(d) == MonthKey(year, month) <==> month != 10 && d.year == year && d.month == month
  {
    var a, b := MonthKey(year, month), YearMonth(d);
    var ys, ds := NatToString(year), NatToString(d.year);
    Pad2Length(d.month);
    MonthStringMatchesStrftime(month);
    if month == 10 {
      assert a[|a| - 3] == '0';
      assert b[|b| - 3] == '-';
    } else if a == b {
      Pad2Length(month);
      assert |ys| == |ds|;
      assert ys == a[..|ys|] == b[..|ds|] == ds;
      NatToStringInjective(year, d.year);
      assert Pad2(month) == a[|ys| + 1..] == b[|ds| + 1..] == Pad2(d.month);
      Pad2Injective(month, d.month);
    }
  }

  /** The filter keeps exactly the rows of the given month, in order; in
      October it keeps none. */
  lemma {:induction false} FilterMonthIsRowsInMonth(rows: seq<ExpenseRow>, year: nat, month: nat)
    requires 1 <= month <= 12
    ensures FilterMonth(rows, year, month) == if month == 10 then [] else RowsInMonth(rows, year, month)
  {
    if rows != [] {
      KeyMatchIff(rows[0].date, year, month);
      FilterMonthIsRowsInMonth(rows[1..], year, month);
    }
  }

  /** The reference selection keeps the rows of that month and only them,
      and never more rows than its input. */
  lemma {:induction false} RowsInMonthSelects(rows: seq<ExpenseRow>, year: nat, month: nat)
    ensures forall r :: r in RowsInMonth(rows, year, month) <==>
      r in rows && r.date.year == year && r.date.month == month
    ensures |RowsInMonth(rows, year, month)| <= |rows|
  {
    if rows != [] {
      RowsInMonthSelects(rows[1..], year, month);
      assert rows == [rows[0]] + rows[1..];
    }
  }

  /** Selecting from two stretches of rows one after the other is selecting
      from their concatenation: the selection keeps the input order. */
  lemma {:induction false} RowsInMonthAppend(a: seq<ExpenseRow>, b: seq<ExpenseRow>, year: nat, month: nat)
    ensures RowsInMonth(a + b, year, month) == RowsInMonth(a, year, month) + RowsInMonth(b, year, month)
  {
    if a == [] {
      assert a + b == b;
    } else {
      assert (a + b)[0] == a[0];
      assert (a + b)[1..] == a[1..] + b;
      RowsInMonthAppend(a[1..], b, year, month);
    }
  }
}
