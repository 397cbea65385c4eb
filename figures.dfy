/** The inputs of the three figures. The flow (Sankey) figure is built from
    the directed graph `from_pandas_edgelist(df2, day, category)`: its node
    labels are the graph's nodes and every link is one graph edge, given by
    the positions of its endpoints in the node list. The pie and bar figures
    take the category and total columns of the aggregate as they are. */
module Figures {
  import opened Aggregate

  /** A graph node: a day (an integer) or a category (a string). A day can
      never equal a category, so the two kinds of node never merge. */
  datatype Label = DayLabel(day: nat) | CategoryLabel(category: string)

  datatype Edge = Edge(u: Label, v: Label, weight: int)

  /** The link of one aggregate row: its day to its category, weighted by
      its total. */
  function EdgeOf(a: AggRow): Edge {
    Edge(DayLabel(a.day), CategoryLabel(a.category), a.total)
  }

  /** The nodes in the order the graph is offered them: each row adds its
      day and then its category. */
  function Endpoints(agg: seq<AggRow>): seq<Label> {
    if agg == [] then []
    else Endpoints(agg[..|agg| - 1]) + [DayLabel(agg[|agg| - 1].day), CategoryLabel(agg[|agg| - 1].category)]
  }

  predicate Distinct<T(==)>(s: seq<T>) {
    forall i, j :: 0 <= i < j < |s| ==> s[i] != s[j]
  }

  /** The distinct elements of `s` in order of first appearance, as a graph
      keeps its nodes. */
  function Dedup(s: seq<Label>): seq<Label> {
    if s == [] then []
    else
      var d := Dedup(s[..|s| - 1]);
      if s[|s| - 1] in d then d else d + [s[|s| - 1]]
  }

  /** The position of the first occurrence of `x`, as `list.index` gives it. */
  function IndexOf<T(==)>(s: seq<T>, x: T): (i: nat)
    requires x in s
    ensures i < |s| && s[i] == x
    ensures forall j :: 0 <= j < i ==> s[j] != x
  {
    if s[0] == x then 0 else 1 + IndexOf(s[1..], x)
  }

  /** `list(G.nodes())`. */
  function Nodes(agg: seq<AggRow>): seq<Label> {
    Dedup(Endpoints(agg))
  }

  /** The out-edges of node `n`, in the order they were added. */
  function OutEdges(agg: seq<AggRow>, n: Label): seq<Edge> {
    if agg == [] then []
    else
      OutEdges(agg[..|agg| - 1], n)
      + (if DayLabel(agg[|agg| - 1].day) == n then [EdgeOf(agg[|agg| - 1])] else [])
  }

  /** The edges of a graph traversed node by node, each node's out-edges in
      insertion order. */
  function AdjacencyEdges(agg: seq<AggRow>, ns: seq<Label>): seq<Edge> {
    if ns == [] then []
    else AdjacencyEdges(agg, ns[..|ns| - 1]) + OutEdges(agg, ns[|ns| - 1])
  }

  /** `G.edges(data=True)`. A directed graph merges a repeated (day,
      category) pair into one edge; an aggregate is ascending, so it has no
      repeated pair and `AdjacencyEdges` needs no merging. */
  function GraphEdges(agg: seq<AggRow>): seq<Edge>
    requires Ascending(agg)
  {
    AdjacencyEdges(agg, Nodes(agg))
  }

  /** The node labels and the `source`, `target` and `value` link lists
      handed to the Sankey figure. */
  datatype Sankey = Sankey(labels: seq<Label>, source: seq<nat>, target: seq<nat>, value: seq<int>)

  function SankeyOf(agg: seq<AggRow>): Sankey
    requires Ascending(agg)
  {
    var labels := Nodes(agg);
    var edges := GraphEdges(agg);
    EdgeEndpointsAreNodes(agg);
    Sankey(
      labels,
      seq(|edges|, i requires 0 <= i < |edges| => IndexOf(labels, edges[i].u)),
      seq(|edges|, i requires 0 <= i < |edges| => IndexOf(labels, edges[i].v)),
      seq(|edges|, i requires 0 <= i < |edges| => edges[i].weight))
  }

  /** The labels and amounts given to the pie chart (`labels`, `values`)
      and, unchanged, to the bar chart (`x`, `y`). */
  datatype Series = Series(categories: seq<string>, amounts: seq<int>)

  function CategorySeries(agg: seq<AggRow>): Series {
    Series(
      seq(|agg|, i requires 0 <= i < |agg| => agg[i].category),
      seq(|agg|, i requires 0 <= i < |agg| => agg[i].total))
  }

  function Sum(s: seq<int>): int {
    if s == [] then 0 else s[0] + Sum(s[1..])
  }

  // Lemmas

  lemma {:induction false} EndpointsAt(agg: seq<AggRow>)
    ensures |Endpoints(agg)| == 2 * |agg|
    ensures forall i :: 0 <= i < |agg| ==>
      Endpoints(agg)[2 * i] == DayLabel(agg[i].day) && Endpoints(agg)[2 * i + 1] == CategoryLabel(agg[i].category)
  {
    if agg != [] {
      var init := agg[..|agg| - 1];
      EndpointsAt(init);
      assert forall i :: 0 <= i < |init| ==> init[i] == agg[i];
    }
  }

  /** Every row's day and category are endpoints. */
  lemma EndpointsCover(agg: seq<AggRow>)
    ensures forall i :: 0 <= i < |agg| ==>
      DayLabel(agg[i].day) in Endpoints(agg) && CategoryLabel(agg[i].category) in Endpoints(agg)
  {
    var e := Endpoints(agg);
    EndpointsAt(agg);
    forall i | 0 <= i < |agg|
      ensures DayLabel(agg[i].day) in e && CategoryLabel(agg[i].category) in e
    {
      assert e[2 * i] == DayLabel(agg[i].day);
      assert e[2 * i + 1] == CategoryLabel(agg[i].category);
    }
  }

  /** Every endpoint is the day or the category of some row. */
  lemma EndpointOfRow(agg: seq<AggRow>, x: Label) returns (i: nat)
    requires x in Endpoints(agg)
    ensures i < |agg| && (x == DayLabel(agg[i].day) || x == CategoryLabel(agg[i].category))
  {
    var e := Endpoints(agg);
    EndpointsAt(agg);
    var k :| 0 <= k < |e| && e[k] == x;
    i := k / 2;
    if k % 2 == 0 {
      assert k == 2 * i;
    } else {
      assert k == 2 * i + 1;
    }
  }

  lemma {:induction false} DedupHas(s: seq<Label>, x: Label)
    ensures x in Dedup(s) <==> x in s
  {
    if s != [] {
      DedupHas(s[..|s| - 1], x);
      assert s == s[..|s| - 1] + [s[|s| - 1]];
    }
  }

  lemma {:induction false} DedupDistinct(s: seq<Label>)
    ensures Distinct(Dedup(s))
  {
    if s != [] {
      DedupDistinct(s[..|s| - 1]);
    }
  }

  lemma {:induction false} OutEdgesFromRows(agg: seq<AggRow>, n: Label)
    ensures forall e :: e in OutEdges(agg, n) ==>
      e.u == n && e.u.DayLabel? && e.v.CategoryLabel? && e.u in Endpoints(agg) && e.v in Endpoints(agg)
  {
    if agg != [] {
      var init := agg[..|agg| - 1];
      OutEdgesFromRows(init, n);
    }
  }

  lemma {:induction false} AdjacencyEdgesFromNodes(agg: seq<AggRow>, ns: seq<Label>)
    ensures forall e :: e in AdjacencyEdges(agg, ns) ==> e.u in Endpoints(agg) && e.v in Endpoints(agg)
  {
    if ns != [] {
      AdjacencyEdgesFromNodes(agg, ns[..|ns| - 1]);
      OutEdgesFromRows(agg, ns[|ns| - 1]);
    }
  }

  lemma EdgeEndpointsAreNodes(agg: seq<AggRow>)
    ensures forall e :: e in AdjacencyEdges(agg, Nodes(agg)) ==> e.u in Nodes(agg) && e.v in Nodes(agg)
  {
    AdjacencyEdgesFromNodes(agg, Nodes(agg));
    forall x | x in Endpoints(agg)
      ensures x in Nodes(agg)
    {
      DedupHas(Endpoints(agg), x);
    }
  }

  /** Categories are only ever targets: they have no out-edges. */
  lemma {:induction false} CategoryHasNoOutEdges(agg: seq<AggRow>, c: string)
    ensures OutEdges(agg, CategoryLabel(c)) == []
  {
    if agg != [] { CategoryHasNoOutEdges(agg[..|agg| - 1], c); }
  }

  /** A node that no row mentions has no out-edges. */
  lemma AbsentNodeHasNoOutEdges(agg: seq<AggRow>, n: Label)
    requires n !in Endpoints(agg)
    ensures OutEdges(agg, n) == []
  {
    OutEdgesFromRows(agg, n);
  }

  lemma OutEdgesSnoc(agg: seq<AggRow>, r: AggRow, n: Label)
    ensures OutEdges(agg + [r], n) == OutEdges(agg, n) + (if DayLabel(r.day) == n then [EdgeOf(r)] else [])
  {
    assert (agg + [r])[..|agg|] == agg;
  }

  lemma AdjacencySnoc(agg: seq<AggRow>, ns: seq<Label>, m: Label)
    ensures AdjacencyEdges(agg, ns + [m]) == AdjacencyEdges(agg, ns) + OutEdges(agg, m)
  {
    assert (ns + [m])[..|ns|] == ns;
  }

  /** Adding row `r` to the graph adds its edge at the place of its day
      node; when every node after that one is a category, that place is the
      end of the traversal. */
  lemma {:induction false} AdjacencyAddRow(agg: seq<AggRow>, r: AggRow, ns: seq<Label>)
    requires Distinct(ns) && TrailsAfter(ns, DayLabel(r.day))
    ensures AdjacencyEdges(agg + [r], ns)
         == AdjacencyEdges(agg, ns) + (if DayLabel(r.day) in ns then [EdgeOf(r)] else [])
  {
    if ns != [] {
      var pre, m := ns[..|ns| - 1], ns[|ns| - 1];
      assert ns == pre + [m];
      AdjacencyAddRow(agg, r, pre);
      AdjacencySnoc(agg + [r], pre, m);
      AdjacencySnoc(agg, pre, m);
      OutEdgesSnoc(agg, r, m);
      if m != DayLabel(r.day) && DayLabel(r.day) in pre {
        var i :| 0 <= i < |pre| && pre[i] == DayLabel(r.day);
        assert ns[i] == DayLabel(r.day);
        CategoryHasNoOutEdges(agg, m.category);
      }
    }
  }

  lemma NodesSnoc(agg: seq<AggRow>, r: AggRow)
    ensures var ns, d, c := Nodes(agg), DayLabel(r.day), CategoryLabel(r.category);
      var withDay := if d in ns then ns else ns + [d];
      Nodes(agg + [r]) == if c in withDay then withDay else withDay + [c]
  {
    var e := Endpoints(agg);
    var d, c := DayLabel(r.day), CategoryLabel(r.category);
    var s1 := e + [d];
    var s2 := s1 + [c];
    assert (agg + [r])[..|agg|] == agg;
    assert Endpoints(agg + [r]) == s2;
    assert s2[..|s2| - 1] == s1 && s2[|s2| - 1] == c;
    assert s1[..|s1| - 1] == e && s1[|s1| - 1] == d;
    assert Dedup(s1) == if d in Dedup(e) then Dedup(e) else Dedup(e) + [d];
  }

  predicate DaysNondecreasing(agg: seq<AggRow>) {
    forall i, j :: 0 <= i < j < |agg| ==> agg[i].day <= agg[j].day
  }

  /** The links as the aggregate lists them, one per row. */
  function RowEdges(agg: seq<AggRow>): seq<Edge> {
    seq(|agg|, i requires 0 <= i < |agg| => EdgeOf(agg[i]))
  }

  /** After node `d`, the node list holds only categories. */
  predicate TrailsAfter(ns: seq<Label>, d: Label) {
    forall i, j :: 0 <= i < j < |ns| && ns[i] == d ==> ns[j].CategoryLabel?
  }

  /** The node of the last row's day is followed by categories only. */
  predicate LastDayNodeTrails(agg: seq<AggRow>) {
    agg != [] ==> TrailsAfter(Nodes(agg), DayLabel(agg[|agg| - 1].day))
  }

  lemma TrailsAfterAppend(ns: seq<Label>, d: Label, extra: seq<Label>)
    requires TrailsAfter(ns, d)
    requires forall k :: 0 <= k < |extra| ==> extra[k].CategoryLabel?
    requires d.DayLabel?
    ensures TrailsAfter(ns + extra, d)
  {
  }

  lemma TrailsAfterNewDay(ns: seq<Label>, d: Label, extra: seq<Label>)
    requires d !in ns
    requires forall k :: 0 <= k < |extra| ==> extra[k].CategoryLabel?
    requires d.DayLabel?
    ensures TrailsAfter(ns + [d] + extra, d)
  {
    var ns' := ns + [d] + extra;
    forall i, j | 0 <= i < j < |ns'| && ns'[i] == d
      ensures ns'[j].CategoryLabel?
    {
      if i == |ns| {
        assert ns'[j] == extra[j - |ns| - 1];
      }
    }
  }

  /** A day node already present belongs to the last row's day when the
      days are sorted and the new row's day is that day. */
  lemma SeenDayIsLastDay(init: seq<AggRow>, r: AggRow)
    requires DaysNondecreasing(init + [r])
    requires DayLabel(r.day) in Nodes(init)
    ensures init != [] && init[|init| - 1].day == r.day
  {
    var agg := init + [r];
    DedupHas(Endpoints(init), DayLabel(r.day));
    var i := EndpointOfRow(init, DayLabel(r.day));
    assert agg[i] == init[i] && agg[|init| - 1] == init[|init| - 1] && agg[|init|] == r;
  }

  /** Adding a row whose day is not below any earlier day keeps the last
      day's node behind every other day node. */
  lemma TrailsAfterRow(init: seq<AggRow>, r: AggRow)
    requires DaysNondecreasing(init + [r]) && LastDayNodeTrails(init)
    ensures LastDayNodeTrails(init + [r])
  {
    var agg := init + [r];
    var ns, d, c := Nodes(init), DayLabel(r.day), CategoryLabel(r.category);
    var tail := if c in ns then [] else [c];
    NodesExtend(init, r);
    if d in ns {
      SeenDayIsLastDay(init, r);
      assert Nodes(agg) == ns + tail;
      TrailsAfterAppend(ns, d, tail);
    } else {
      assert Nodes(agg) == ns + [d] + tail;
      TrailsAfterNewDay(ns, d, tail);
    }
    assert agg[|agg| - 1] == r;
  }

  /** Traversing two node lists one after the other traverses their
      concatenation. */
  lemma {:induction false} AdjacencyAppend(agg: seq<AggRow>, ns: seq<Label>, extra: seq<Label>)
    ensures AdjacencyEdges(agg, ns + extra) == AdjacencyEdges(agg, ns) + AdjacencyEdges(agg, extra)
  {
    if extra == [] {
      assert ns + extra == ns;
    } else {
      var pre, last := extra[..|extra| - 1], extra[|extra| - 1];
      var front := ns + pre;
      assert extra == pre + [last];
      assert ns + extra == front + [last];
      AdjacencyAppend(agg, ns, pre);
      AdjacencySnoc(agg, front, last);
      AdjacencySnoc(agg, pre, last);
      ConcatAssociative(AdjacencyEdges(agg, ns), AdjacencyEdges(agg, pre), OutEdges(agg, last));
    }
  }

  lemma ConcatAssociative(a: seq<Edge>, b: seq<Edge>, c: seq<Edge>)
    ensures (a + b) + c == a + (b + c)
  {
  }

  /** Nodes with no out-edges contribute no edge to a traversal. */
  lemma {:induction false} IdleNodesTraverseNothing(agg: seq<AggRow>, extra: seq<Label>)
    requires forall k :: 0 <= k < |extra| ==> OutEdges(agg, extra[k]) == []
    ensures AdjacencyEdges(agg, extra) == []
  {
    if extra != [] {
      var pre := extra[..|extra| - 1];
      assert forall k :: 0 <= k < |pre| ==> pre[k] == extra[k];
      IdleNodesTraverseNothing(agg, pre);
      assert OutEdges(agg, extra[|extra| - 1]) == [];
    }
  }

  /** Nodes with no out-edges add nothing to the traversal. */
  lemma IdleNodesAddNothing(agg: seq<AggRow>, ns: seq<Label>, extra: seq<Label>)
    requires forall k :: 0 <= k < |extra| ==> OutEdges(agg, extra[k]) == []
    ensures AdjacencyEdges(agg, ns + extra) == AdjacencyEdges(agg, ns)
  {
    AdjacencyAppend(agg, ns, extra);
    IdleNodesTraverseNothing(agg, extra);
  }

  /** The nodes row `r` adds to a graph whose nodes are `ns`. */
  function NewNodes(ns: seq<Label>, r: AggRow): seq<Label> {
    var d, c := DayLabel(r.day), CategoryLabel(r.category);
    (if d in ns then [] else [d]) + (if c in ns then [] else [c])
  }

  lemma NodesExtend(init: seq<AggRow>, r: AggRow)
    ensures Nodes(init + [r]) == Nodes(init) + NewNodes(Nodes(init), r)
    ensures DayLabel(r.day) in Nodes(init + [r])
  {
    NodesSnoc(init, r);
  }

  /** The nodes a row adds to a graph have no out-edges in it yet. */
  lemma NewNodesIdle(init: seq<AggRow>, r: AggRow)
    ensures var extra := NewNodes(Nodes(init), r);
      forall k :: 0 <= k < |extra| ==> OutEdges(init, extra[k]) == []
  {
    var d := DayLabel(r.day);
    if d !in Nodes(init) {
      DedupHas(Endpoints(init), d);
      AbsentNodeHasNoOutEdges(init, d);
    }
    CategoryHasNoOutEdges(init, r.category);
  }

  /** Adding a row to a graph whose last day's node trails appends exactly
      that row's edge to the traversal. */
  lemma EdgesAfterRow(init: seq<AggRow>, r: AggRow)
    requires LastDayNodeTrails(init + [r])
    ensures AdjacencyEdges(init + [r], Nodes(init + [r])) == AdjacencyEdges(init, Nodes(init)) + [EdgeOf(r)]
  {
    var agg := init + [r];
    assert agg[|agg| - 1] == r;
    NodesExtend(init, r);
    NewNodesIdle(init, r);
    DedupDistinct(Endpoints(agg));
    AdjacencyAddRow(init, r, Nodes(agg));
    IdleNodesAddNothing(init, Nodes(init), NewNodes(Nodes(init), r));
  }

  lemma RowEdgesSnoc(init: seq<AggRow>, r: AggRow)
    ensures RowEdges(init + [r]) == RowEdges(init) + [EdgeOf(r)]
  {
  }

  lemma PrefixDaysNondecreasing(agg: seq<AggRow>)
    requires agg != [] && DaysNondecreasing(agg)
    ensures DaysNondecreasing(agg[..|agg| - 1])
  {
  }

  /** When the days are sorted, traversing the graph node by node lists
      the edges in the order of the rows. */
  lemma {:induction false} AdjacencyFollowsRows(agg: seq<AggRow>)
    requires DaysNondecreasing(agg)
    ensures AdjacencyEdges(agg, Nodes(agg)) == RowEdges(agg)
    ensures LastDayNodeTrails(agg)
  {
    if agg != [] {
      var init, r := agg[..|agg| - 1], agg[|agg| - 1];
      PrefixDaysNondecreasing(agg);
      AdjacencyFollowsRows(init);
      assert agg == init + [r];
      TrailsAfterRow(init, r);
      EdgesAfterRow(init, r);
      RowEdgesSnoc(init, r);
    }
  }

  lemma AscendingDaysNondecreasing(agg: seq<AggRow>)
    requires Ascending(agg)
    ensures DaysNondecreasing(agg)
  {
    forall i, j | 0 <= i < j < |agg|
      ensures agg[i].day <= agg[j].day
    {
      assert KeyLess(KeyOf(agg[i]), KeyOf(agg[j]));
    }
  }

  /** The Sankey lists are well formed: the labels are distinct and are
      exactly the days and categories of the aggregate; there is one link
      per aggregate row, in row order, running from the label of its day to
      the label of its category and carrying its total. */
  lemma SankeyCorrect(agg: seq<AggRow>)
    requires Ascending(agg)
    ensures var s := SankeyOf(agg);
      && Distinct(s.labels)
      && |s.source| == |s.target| == |s.value| == |agg|
      && (forall i :: 0 <= i < |agg| ==>
            && s.source[i] < |s.labels| && s.labels[s.source[i]] == DayLabel(agg[i].day)
            && s.target[i] < |s.labels| && s.labels[s.target[i]] == CategoryLabel(agg[i].category)
            && s.value[i] == agg[i].total)
      && (forall i :: 0 <= i < |agg| ==>
            DayLabel(agg[i].day) in s.labels && CategoryLabel(agg[i].category) in s.labels)
      && (forall x :: x in s.labels ==>
            exists i :: 0 <= i < |agg| && (x == DayLabel(agg[i].day) || x == CategoryLabel(agg[i].category)))
  {
    var s := SankeyOf(agg);
    DedupDistinct(Endpoints(agg));
    AscendingDaysNondecreasing(agg);
    AdjacencyFollowsRows(agg);
    assert GraphEdges(agg) == RowEdges(agg);
    EndpointsCover(agg);
    forall i | 0 <= i < |agg|
      ensures DayLabel(agg[i].day) in s.labels && CategoryLabel(agg[i].category) in s.labels
    {
      DedupHas(Endpoints(agg), DayLabel(agg[i].day));
      DedupHas(Endpoints(agg), CategoryLabel(agg[i].category));
    }
    forall x | x in s.labels
      ensures exists i :: 0 <= i < |agg| && (x == DayLabel(agg[i].day) || x == CategoryLabel(agg[i].category))
    {
      DedupHas(Endpoints(agg), x);
      var i := EndpointOfRow(agg, x);
    }
  }

  /** The labels keep the order in which the graph first met each node. */
  lemma {:induction false} DedupFirstAppearance(s: seq<Label>)
    ensures forall i, j :: 0 <= i < j < |Dedup(s)| ==>
      Dedup(s)[i] in s && Dedup(s)[j] in s && IndexOf(s, Dedup(s)[i]) < IndexOf(s, Dedup(s)[j])
  {
    if s != [] {
      var init, x := s[..|s| - 1], s[|s| - 1];
      DedupFirstAppearance(init);
      var d := Dedup(init);
      assert s == init + [x];
      forall y | y in init
        ensures IndexOf(s, y) == IndexOf(init, y)
      {
        FirstIndexInPrefix(init, x, y);
      }
      forall k | 0 <= k < |d|
        ensures d[k] in init
      {
        DedupHas(init, d[k]);
      }
      var dd := Dedup(s);
      assert dd == if x in d then d else d + [x];
      forall i, j | 0 <= i < j < |dd|
        ensures dd[i] in s && dd[j] in s && IndexOf(s, dd[i]) < IndexOf(s, dd[j])
      {
        if j < |d| {
          assert dd[i] == d[i] && dd[j] == d[j];
        } else {
          DedupHas(init, x);
          assert dd[j] == x && x !in init;
          assert IndexOf(s, x) == |init|;
          assert dd[i] == d[i];
        }
      }
    } else {
      assert Dedup(s) == [];
    }
  }

  lemma {:induction false} FirstIndexInPrefix(s: seq<Label>, x: Label, y: Label)
    requires y in s
    ensures IndexOf(s + [x], y) == IndexOf(s, y)
  {
    if s[0] != y {
      assert (s + [x])[1..] == s[1..] + [x];
      FirstIndexInPrefix(s[1..], x, y);
    }
  }

  /** One label/value entry per aggregate row, labelled by its category
      and sized by its total; the inputs are not merged across days.
      Together the values add up to the aggregate's total. */
  lemma {:induction false} CategorySeriesCorrect(agg: seq<AggRow>)
    ensures var s := CategorySeries(agg);
      && |s.categories| == |s.amounts| == |agg|
      && (forall i :: 0 <= i < |agg| ==> s.categories[i] == agg[i].category && s.amounts[i] == agg[i].total)
      && Sum(s.amounts) == TotalSum(agg)
  {
    if agg != [] {
      CategorySeriesCorrect(agg[1..]);
      assert CategorySeries(agg).amounts[1..] == CategorySeries(agg[1..]).amounts;
    }
  }
}
