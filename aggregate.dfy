/** The aggregation `df.groupby([day, Categories])["Expenses"].sum()`:
    one row per distinct (day of month, category) pair, ordered by day and
    then by category, holding the sum of that pair's amounts. */
module Aggregate {
  import opened Records

  datatype GroupKey = GroupKey(day: nat, category: string)

  /** One row of `df2`: the `Created Date` day, the category and the summed
      `Expenses`. */
  datatype AggRow = AggRow(day: nat, category: string, total: int)

  function KeyOfRow(r: ExpenseRow): GroupKey {
    GroupKey(r.date.day, r.category)
  }

  function KeyOf(a: AggRow): GroupKey {
    GroupKey(a.day, a.category)
  }

  /** Python's string order: lexicographic by code point. */
  predicate StrLess(a: string, b: string) {
    if a == [] then b != []
    else if b == [] then false
    else if a[0] == b[0] then StrLess(a[1..], b[1..])
    else a[0] < b[0]
  }

  /** The order groupby sorts its keys in: by day, then by category. */
  predicate KeyLess(a: GroupKey, b: GroupKey) {
    a.day < b.day || (a.day == b.day && StrLess(a.category, b.category))
  }

  /** Strictly ascending keys: sorted, and so no key twice. */
  predicate Ascending(agg: seq<AggRow>) {
    forall i, j :: 0 <= i < j < |agg| ==> KeyLess(KeyOf(agg[i]), KeyOf(agg[j]))
  }

  /** Every key of `agg` lies above `lo`. */
  predicate AllAbove(agg: seq<AggRow>, lo: GroupKey) {
    forall j :: 0 <= j < |agg| ==> KeyLess(lo, KeyOf(agg[j]))
  }

  lemma {:induction false} StrLessIrreflexive(a: string)
    ensures !StrLess(a, a)
  {
    if a != [] { StrLessIrreflexive(a[1..]); }
  }

  lemma {:induction false} StrLessTrichotomy(a: string, b: string)
    ensures a == b || StrLess(a, b) || StrLess(b, a)
  {
    if a != [] && b != [] && a[0] == b[0] {
      StrLessTrichotomy(a[1..], b[1..]);
      if a[1..] == b[1..] { assert a == [a[0]] + a[1..] && b == [b[0]] + b[1..]; }
    }
  }

  lemma {:induction false} StrLessTransitive(a: string, b: string, c: string)
    requires StrLess(a, b) && StrLess(b, c)
    ensures StrLess(a, c)
  {
    if a != [] && a[0] == b[0] && b[0] == c[0] {
      StrLessTransitive(a[1..], b[1..], c[1..]);
    }
  }

  lemma KeyLessIrreflexive(k: GroupKey)
    ensures !KeyLess(k, k)
  {
    StrLessIrreflexive(k.category);
  }

  lemma KeyLessTrichotomy(a: GroupKey, b: GroupKey)
    ensures a == b || KeyLess(a, b) || KeyLess(b, a)
  {
    StrLessTrichotomy(a.category, b.category);
  }

  lemma KeyLessTransitive(a: GroupKey, b: GroupKey, c: GroupKey)
    requires KeyLess(a, b) && KeyLess(b, c)
    ensures KeyLess(a, c)
  {
    if a.day == b.day == c.day { StrLessTransitive(a.category, b.category, c.category); }
  }

  /** Adds `amount` to the row of key `k`, or inserts a new row for `k` at
      its place in the order. */
  function Insert(agg: seq<AggRow>, k: GroupKey, amount: int): seq<AggRow>
  {
    if agg == [] then [AggRow(k.day, k.category, amount)]
    else if KeyOf(agg[0]) == k then [AggRow(k.day, k.category, agg[0].total + amount)] + agg[1..]
    else if KeyLess(k, KeyOf(agg[0])) then [AggRow(k.day, k.category, amount)] + agg
    else [agg[0]] + Insert(agg[1..], k, amount)
  }

  lemma {:induction false} InsertAllAbove(agg: seq<AggRow>, k: GroupKey, amount: int, lo: GroupKey)
    requires AllAbove(agg, lo) && KeyLess(lo, k)
    ensures AllAbove(Insert(agg, k, amount), lo)
  {
    if agg != [] && KeyOf(agg[0]) != k && !KeyLess(k, KeyOf(agg[0])) {
      InsertAllAbove(agg[1..], k, amount, lo);
    }
  }

  lemma {:induction false} InsertAscending(agg: seq<AggRow>, k: GroupKey, amount: int)
    requires Ascending(agg)
    ensures Ascending(Insert(agg, k, amount))
  {
    if agg == [] {
    } else if KeyOf(agg[0]) == k {
      var r := Insert(agg, k, amount);
      assert forall i :: 0 <= i < |r| ==> KeyOf(r[i]) == KeyOf(agg[i]);
    } else if KeyLess(k, KeyOf(agg[0])) {
      forall j | 0 <= j < |agg|
        ensures KeyLess(k, KeyOf(agg[j]))
      {
        if j > 0 { KeyLessTransitive(k, KeyOf(agg[0]), KeyOf(agg[j])); }
      }
    } else {
      KeyLessTrichotomy(k, KeyOf(agg[0]));
      var rest := agg[1..];
      assert Ascending(rest);
      InsertAscending(rest, k, amount);
      assert AllAbove(rest, KeyOf(agg[0]));
      InsertAllAbove(rest, k, amount, KeyOf(agg[0]));
    }
  }

  /** `groupby([day, category]).sum()` on the filtered rows. */
  function GroupSum(rows: seq<ExpenseRow>): (agg: seq<AggRow>)
    ensures Ascending(agg)
    ensures |agg| <= |rows|
    ensures agg == [] <==> rows == []
  {
    if rows == [] then []
    else
      var rest := GroupSum(rows[1..]);
      InsertAscending(rest, KeyOfRow(rows[0]), rows[0].amount);
      InsertLength(rest, KeyOfRow(rows[0]), rows[0].amount);
      Insert(rest, KeyOfRow(rows[0]), rows[0].amount)
  }

  lemma {:induction false} InsertLength(agg: seq<AggRow>, k: GroupKey, amount: int)
    ensures |agg| <= |Insert(agg, k, amount)| <= |agg| + 1
  {
    if agg != [] && KeyOf(agg[0]) != k && !KeyLess(k, KeyOf(agg[0])) {
      InsertLength(agg[1..], k, amount);
    }
  }

  /** No key appears twice in an ascending sequence of rows. */
  lemma AscendingKeysUnique(agg: seq<AggRow>)
    requires Ascending(agg)
    ensures forall i, j :: 0 <= i < |agg| && 0 <= j < |agg| && i != j ==> KeyOf(agg[i]) != KeyOf(agg[j])
  {
    forall i, j | 0 <= i < |agg| && 0 <= j < |agg| && i != j
      ensures KeyOf(agg[i]) != KeyOf(agg[j])
    {
      KeyLessIrreflexive(KeyOf(agg[i]));
    }
  }

  // Sums and key sets

  function AmountSum(rows: seq<ExpenseRow>): int {
    if rows == [] then 0 else rows[0].amount + AmountSum(rows[1..])
  }

  function TotalSum(agg: seq<AggRow>): int {
    if agg == [] then 0 else agg[0].total + TotalSum(agg[1..])
  }

  /** The sum of the amounts of the rows with key `k`. */
  function SumFor(rows: seq<ExpenseRow>, k: GroupKey): int {
    if rows == [] then 0
    else (if KeyOfRow(rows[0]) == k then rows[0].amount else 0) + SumFor(rows[1..], k)
  }

  /** The sum of the totals of the aggregate rows with key `k`. */
  function TotalFor(agg: seq<AggRow>, k: GroupKey): int {
    if agg == [] then 0
    else (if KeyOf(agg[0]) == k then agg[0].total else 0) + TotalFor(agg[1..], k)
  }

  function RowKeys(rows: seq<ExpenseRow>): set<GroupKey> {
    if rows == [] then {} else {KeyOfRow(rows[0])} + RowKeys(rows[1..])
  }

  function AggKeys(agg: seq<AggRow>): set<GroupKey> {
    if agg == [] then {} else {KeyOf(agg[0])} + AggKeys(agg[1..])
  }

  lemma {:induction false} InsertTotalSum(agg: seq<AggRow>, k: GroupKey, amount: int)
    ensures TotalSum(Insert(agg, k, amount)) == TotalSum(agg) + amount
  {
    if agg != [] && KeyOf(agg[0]) != k && !KeyLess(k, KeyOf(agg[0])) {
      InsertTotalSum(agg[1..], k, amount);
    }
  }

  lemma {:induction false} InsertTotalFor(agg: seq<AggRow>, k: GroupKey, amount: int, q: GroupKey)
    ensures TotalFor(Insert(agg, k, amount), q) == TotalFor(agg, q) + (if q == k then amount else 0)
  {
    if agg != [] && KeyOf(agg[0]) != k && !KeyLess(k, KeyOf(agg[0])) {
      InsertTotalFor(agg[1..], k, amount, q);
    }
  }

  lemma {:induction false} InsertKeys(agg: seq<AggRow>, k: GroupKey, amount: int)
    ensures AggKeys(Insert(agg, k, amount)) == AggKeys(agg) + {k}
  {
    if agg == [] {
    } else if KeyOf(agg[0]) == k {
    } else if KeyLess(k, KeyOf(agg[0])) {
    } else {
      InsertKeys(agg[1..], k, amount);
    }
  }

  /** Aggregation is lossless: the totals add up to the filtered amounts. */
  lemma {:induction false} GroupSumLossless(rows: seq<ExpenseRow>)
    ensures TotalSum(GroupSum(rows)) == AmountSum(rows)
  {
    if rows != [] {
      GroupSumLossless(rows[1..]);
      InsertTotalSum(GroupSum(rows[1..]), KeyOfRow(rows[0]), rows[0].amount);
    }
  }

  /** One aggregate row per distinct key of the input, and no other. */
  lemma {:induction false} GroupSumKeys(rows: seq<ExpenseRow>)
    ensures AggKeys(GroupSum(rows)) == RowKeys(rows)
  {
    if rows != [] {
      GroupSumKeys(rows[1..]);
      InsertKeys(GroupSum(rows[1..]), KeyOfRow(rows[0]), rows[0].amount);
    }
  }

  lemma {:induction false} GroupSumTotalFor(rows: seq<ExpenseRow>, k: GroupKey)
    ensures TotalFor(GroupSum(rows), k) == SumFor(rows, k)
  {
    if rows != [] {
      GroupSumTotalFor(rows[1..], k);
      InsertTotalFor(GroupSum(rows[1..]), KeyOfRow(rows[0]), rows[0].amount, k);
    }
  }

  lemma {:induction false} TotalForAbsent(agg: seq<AggRow>, k: GroupKey)
    requires forall j :: 0 <= j < |agg| ==> KeyOf(agg[j]) != k
    ensures TotalFor(agg, k) == 0
  {
    if agg != [] { TotalForAbsent(agg[1..], k); }
  }

  /** In an ascending sequence the total recorded for a key is its row's. */
  lemma {:induction false} TotalForAt(agg: seq<AggRow>, i: nat)
    requires Ascending(agg) && i < |agg|
    ensures TotalFor(agg, KeyOf(agg[i])) == agg[i].total
  {
    AscendingKeysUnique(agg);
    if i == 0 {
      TotalForAbsent(agg[1..], KeyOf(agg[0]));
    } else {
      assert Ascending(agg[1..]);
      TotalForAt(agg[1..], i - 1);
    }
  }

  /** Each aggregate row holds the sum of the amounts of the rows with its
      (day, category) key. */
  lemma GroupSumTotals(rows: seq<ExpenseRow>)
    ensures forall i :: 0 <= i < |GroupSum(rows)| ==>
      GroupSum(rows)[i].total == SumFor(rows, KeyOf(GroupSum(rows)[i]))
  {
    var agg := GroupSum(rows);
    forall i | 0 <= i < |agg|
      ensures agg[i].total == SumFor(rows, KeyOf(agg[i]))
    {
      TotalForAt(agg, i);
      GroupSumTotalFor(rows, KeyOf(agg[i]));
    }
  }

  /** The three guarantees of the grouping together: unique keys in
      (day, category) order, exactly the keys of the input, and each total
      the sum of its key's amounts, so nothing is lost. */
  lemma GroupSumCorrect(rows: seq<ExpenseRow>)
    ensures var agg := GroupSum(rows);
      && (forall i, j :: 0 <= i < j < |agg| ==> KeyLess(KeyOf(agg[i]), KeyOf(agg[j])))
      && (forall i, j :: 0 <= i < |agg| && 0 <= j < |agg| && i != j ==> KeyOf(agg[i]) != KeyOf(agg[j]))
      && AggKeys(agg) == RowKeys(rows)
      && (forall i :: 0 <= i < |agg| ==> agg[i].total == SumFor(rows, KeyOf(agg[i])))
      && TotalSum(agg) == AmountSum(rows)
  {
    AscendingKeysUnique(GroupSum(rows));
    GroupSumKeys(rows);
    GroupSumTotals(rows);
    GroupSumLossless(rows);
  }

  /** Two purchases of one category on one day merge into a single row;
      a purchase on another day stays separate. */
  lemma GroupSumExample(d1: CalendarDate, d2: CalendarDate)
    requires d1.day == 1 && d2.day == 2
    ensures GroupSum([ExpenseRow("lunch", "Food", 10, d1), ExpenseRow("snack", "Food", 5, d1),
                      ExpenseRow("bus", "Transport", 20, d2)])
         == [AggRow(1, "Food", 15), AggRow(2, "Transport", 20)]
  {
    var rows := [ExpenseRow("lunch", "Food", 10, d1), ExpenseRow("snack", "Food", 5, d1),
                 ExpenseRow("bus", "Transport", 20, d2)];
    assert rows[2..][1..] == [];
    assert GroupSum(rows[2..]) == [AggRow(2, "Transport", 20)];
    assert GroupSum(rows[1..]) == [AggRow(1, "Food", 5), AggRow(2, "Transport", 20)];
  }
}
