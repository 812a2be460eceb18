/**
  The recompute pass run after every quantity change: one subtotal per
  catalog row, the grand total, the total number of units, and the cost
  breakdown handed to the doughnut chart (labels, amounts and colours of the
  rows that cost something, in catalog order).
 */
module Pricing {
  import opened Catalog

  /** The nine chart colours: stone, amber and blue shades. */
  const Palette: seq<string> := [
    "#78716c", "#a8a29e", "#d6d3d1",
    "#f59e0b", "#d97706", "#b45309",
    "#3b82f6", "#2563eb", "#1d4ed8"
  ]

  /** The colour of the catalog row at `index`, cycling through the palette. */
  function ChartColor(index: nat): string {
    Palette[index % |Palette|]
  }

  const EmptyTitle := "Enter quantities to see breakdown"
  const FilledTitle := "Monthly Cost by Asset Type"

  /** The doughnut chart's title, chosen by whether it has any slice. */
  function ChartTitle(data: seq<int>): string {
    if |data| == 0 then EmptyTitle else FilledTitle
  }

  function Subtotal(item: Item): int {
    item.rate * item.qty
  }

  /** Left-to-right sum, in the order the recompute pass accumulates. */
  function Sum(xs: seq<int>): int {
    if |xs| == 0 then 0 else Sum(xs[..|xs| - 1]) + xs[|xs| - 1]
  }

  function Subtotals(items: seq<Item>): seq<int> {
    seq(|items|, j requires 0 <= j < |items| => Subtotal(items[j]))
  }

  function Quantities(items: seq<Item>): seq<int> {
    seq(|items|, j requires 0 <= j < |items| => items[j].qty)
  }

  function GrandTotal(items: seq<Item>): int {
    Sum(Subtotals(items))
  }

  function TotalItems(items: seq<Item>): int {
    Sum(Quantities(items))
  }

  /** The positions below `n` of the rows with a positive subtotal, ascending:
      the rows the recompute pass has pushed after visiting `n` of them. */
  function KeptBelow(items: seq<Item>, n: nat): (ks: seq<nat>)
    requires n <= |items|
    ensures forall k :: 0 <= k < |ks| ==> ks[k] < n && Subtotal(items[ks[k]]) > 0
    ensures forall k, l :: 0 <= k < l < |ks| ==> ks[k] < ks[l]
  {
    if n == 0 then []
    else KeptBelow(items, n - 1) + (if Subtotal(items[n - 1]) > 0 then [n - 1] else [])
  }

  /** The catalog positions of the rows with a positive subtotal, ascending. */
  function KeptIndices(items: seq<Item>): seq<nat> {
    KeptBelow(items, |items|)
  }

  /** No row below `n` that costs something is left out. */
  lemma {:induction false} KeptBelowComplete(items: seq<Item>, n: nat, j: nat)
    requires j < n <= |items| && Subtotal(items[j]) > 0
    ensures j in KeptBelow(items, n)
  {
    if j < n - 1 {
      KeptBelowComplete(items, n - 1, j);
    }
  }

  /** No row that costs something is left out. */
  lemma KeptIndicesComplete(items: seq<Item>, j: nat)
    requires j < |items| && Subtotal(items[j]) > 0
    ensures j in KeptIndices(items)
  {
    KeptBelowComplete(items, |items|, j);
  }

  /** The three parallel arrays the doughnut chart is fed. */
  datatype Breakdown = Breakdown(labels: seq<string>, data: seq<int>, colors: seq<string>)

  /** The breakdown after the recompute pass has visited the first `n` rows:
      each row with a positive subtotal pushes its name, its subtotal and the
      colour of its catalog position. */
  function ChartBelow(items: seq<Item>, n: nat): (b: Breakdown)
    requires n <= |items|
    ensures |b.labels| == |b.data| == |b.colors|
  {
    if n == 0 then Breakdown([], [], [])
    else
      var prev := ChartBelow(items, n - 1);
      var s := Subtotal(items[n - 1]);
      if s > 0 then Breakdown(prev.labels + [items[n - 1].name], prev.data + [s], prev.colors + [ChartColor(n - 1)])
      else prev
  }

  /** The breakdown handed to the chart after a full pass. */
  function Chart(items: seq<Item>): Breakdown {
    ChartBelow(items, |items|)
  }

  /** Entry `k` of the breakdown describes the k-th kept row, at catalog
      position `ks[k]`: its name, its subtotal and the colour of that catalog
      position (not of its place in the breakdown). */
  lemma {:induction false} ChartBelowEntries(items: seq<Item>, n: nat)
    requires n <= |items|
    ensures var b, ks := ChartBelow(items, n), KeptBelow(items, n);
      && |b.labels| == |ks|
      && forall k :: 0 <= k < |ks| ==>
           b.labels[k] == items[ks[k]].name && b.data[k] == Subtotal(items[ks[k]]) && b.colors[k] == ChartColor(ks[k])
  {
    if n > 0 {
      ChartBelowEntries(items, n - 1);
    }
  }

  /** Everything one recompute pass produces. */
  datatype Totals = Totals(subtotals: seq<int>, grandTotal: int, totalItems: int, chart: Breakdown)

  /** The recompute pass: a single walk over the catalog in order. */
  method Recompute(items: seq<Item>) returns (t: Totals)
    ensures |t.subtotals| == |items|
    ensures forall j :: 0 <= j < |items| ==> t.subtotals[j] == Subtotal(items[j])
    ensures t.grandTotal == GrandTotal(items) == Sum(t.subtotals)
    ensures t.totalItems == TotalItems(items)
    ensures t.chart == Chart(items)
  {
    var grandTotal := 0;
    var totalItems := 0;
    var subtotals: seq<int> := [];
    var labels: seq<string> := [];
    var data: seq<int> := [];
    var colors: seq<string> := [];
    var index := 0;
    while index < |items|
      invariant 0 <= index <= |items|
      invariant subtotals == Subtotals(items[..index])
      invariant grandTotal == GrandTotal(items[..index])
      invariant totalItems == TotalItems(items[..index])
      invariant Breakdown(labels, data, colors) == ChartBelow(items, index)
    {
      var item := items[index];
      var subtotal := item.rate * item.qty;
      TotalsStep(items, index);
      grandTotal := grandTotal + subtotal;
      totalItems := totalItems + item.qty;
      subtotals := subtotals + [subtotal];
      if subtotal > 0 {
        labels := labels + [item.name];
        data := data + [subtotal];
        colors := colors + [ChartColor(index)];
      }
      index := index + 1;
    }
    assert items[..index] == items;
    t := Totals(subtotals, grandTotal, totalItems, Breakdown(labels, data, colors));
  }

  /** How the sums over a catalog prefix grow by one row. */
  lemma TotalsStep(items: seq<Item>, n: nat)
    requires n < |items|
    ensures Subtotals(items[..n + 1]) == Subtotals(items[..n]) + [Subtotal(items[n])]
    ensures GrandTotal(items[..n + 1]) == GrandTotal(items[..n]) + Subtotal(items[n])
    ensures TotalItems(items[..n + 1]) == TotalItems(items[..n]) + items[n].qty
  {
    var p, q := items[..n + 1], items[..n];
    assert p[..n] == q;
    assert Subtotals(p)[..n] == Subtotals(q);
    assert Quantities(p)[..n] == Quantities(q);
  }

  // ---------------------------------------------------------------------------
  // The breakdown against its independent description.

  /** The breakdown has exactly one entry per row with a positive subtotal, in
      catalog order, and the three arrays have equal lengths. */
  lemma ChartIsOrderedFilter(items: seq<Item>)
    ensures var b, ks := Chart(items), KeptIndices(items);
      && |b.labels| == |b.data| == |b.colors| == |ks|
      && (forall k, l :: 0 <= k < l < |ks| ==> ks[k] < ks[l])
      && (forall j :: 0 <= j < |items| ==> (j in ks <==> Subtotal(items[j]) > 0))
      && (forall k :: 0 <= k < |ks| ==>
            b.labels[k] == items[ks[k]].name && b.data[k] == Subtotal(items[ks[k]]) && b.colors[k] == ChartColor(ks[k]))
  {
    ChartBelowEntries(items, |items|);
    forall j | 0 <= j < |items| && Subtotal(items[j]) > 0
      ensures j in KeptIndices(items)
    {
      KeptIndicesComplete(items, j);
    }
  }

  /** When no row has a negative subtotal, the chart's slices add up to the
      grand total: the rows it leaves out contribute nothing. */
  lemma ChartSumsToGrandTotal(items: seq<Item>)
    requires forall j :: 0 <= j < |items| ==> Subtotal(items[j]) >= 0
    ensures Sum(Chart(items).data) == GrandTotal(items)
  {
    ChartBelowSum(items, |items|);
    assert items[..|items|] == items;
  }

  lemma {:induction false} ChartBelowSum(items: seq<Item>, n: nat)
    requires n <= |items|
    requires forall j :: 0 <= j < |items| ==> Subtotal(items[j]) >= 0
    ensures Sum(ChartBelow(items, n).data) == GrandTotal(items[..n])
  {
    if n == 0 {
      assert Subtotals(items[..0]) == [];
    } else {
      ChartBelowSum(items, n - 1);
      TotalsStep(items, n - 1);
      var prev := ChartBelow(items, n - 1).data;
      var s := Subtotal(items[n - 1]);
      if s > 0 {
        assert (prev + [s])[..|prev|] == prev;
      }
    }
  }

  // ---------------------------------------------------------------------------
  // Sums.

  lemma {:induction false} SumUpdate(xs: seq<int>, i: nat, v: int)
    requires i < |xs|
    ensures Sum(xs[i := v]) == Sum(xs) - xs[i] + v
  {
    var n := |xs| - 1;
    if i == n {
      assert xs[i := v][..n] == xs[..n];
    } else {
      assert xs[i := v][..n] == xs[..n][i := v];
      SumUpdate(xs[..n], i, v);
    }
  }

  lemma {:induction false} SumNonNegative(xs: seq<int>)
    requires forall k :: 0 <= k < |xs| ==> xs[k] >= 0
    ensures Sum(xs) >= 0
  {
    if |xs| > 0 {
      SumNonNegative(xs[..|xs| - 1]);
    }
  }

  /** A sum of non-negative terms is zero exactly when every term is. */
  lemma {:induction false} SumZeroIff(xs: seq<int>)
    requires forall k :: 0 <= k < |xs| ==> xs[k] >= 0
    ensures Sum(xs) == 0 <==> forall k :: 0 <= k < |xs| ==> xs[k] == 0
  {
    if |xs| > 0 {
      var n := |xs| - 1;
      SumZeroIff(xs[..n]);
      SumNonNegative(xs[..n]);
      assert forall k :: 0 <= k < n ==> xs[..n][k] == xs[k];
    }
  }

  // ---------------------------------------------------------------------------
  // Totals over a valid catalog.

  lemma SubtotalPositiveIff(item: Item)
    requires item.rate > 0 && item.qty >= 0
    ensures Subtotal(item) >= 0
    ensures Subtotal(item) > 0 <==> item.qty > 0
  {
    if item.qty > 0 {
      assert item.rate * item.qty >= item.rate * 1;
    }
  }

  lemma NoUnitsNoCost(item: Item)
    requires item.qty == 0
    ensures Subtotal(item) == 0
  {
  }

  /** With non-negative rates and quantities the totals are non-negative. */
  lemma TotalsNonNegative(items: seq<Item>)
    requires forall j :: 0 <= j < |items| ==> items[j].rate >= 0
    requires NonNegativeQuantities(items)
    ensures GrandTotal(items) >= 0
    ensures TotalItems(items) >= 0
  {
    SumNonNegative(Subtotals(items));
    SumNonNegative(Quantities(items));
  }

  /** Changing one row's quantity moves the grand total by the change in that
      row's subtotal, and the unit count by the change in its quantity. */
  lemma TotalsAfterQuantityChange(items: seq<Item>, i: nat, q: int)
    requires i < |items|
    ensures var next := items[i := items[i].(qty := q)];
      && GrandTotal(next) == GrandTotal(items) - Subtotal(items[i]) + Subtotal(next[i])
      && TotalItems(next) == TotalItems(items) - items[i].qty + q
  {
    var next := items[i := items[i].(qty := q)];
    assert Subtotals(next) == Subtotals(items)[i := Subtotal(next[i])];
    assert Quantities(next) == Quantities(items)[i := q];
    SumUpdate(Subtotals(items), i, Subtotal(next[i]));
    SumUpdate(Quantities(items), i, q);
  }

  /** Raising one quantity never lowers the grand total. */
  lemma GrandTotalMonotone(items: seq<Item>, i: nat, q: int)
    requires i < |items|
    requires items[i].rate >= 0
    requires q >= items[i].qty
    ensures GrandTotal(items[i := items[i].(qty := q)]) >= GrandTotal(items)
  {
    TotalsAfterQuantityChange(items, i, q);
    MoreUnitsCostMore(items[i], q);
  }

  lemma MoreUnitsCostMore(item: Item, q: int)
    requires item.rate >= 0 && q >= item.qty
    ensures Subtotal(item.(qty := q)) >= Subtotal(item)
  {
    assert item.rate * q - item.rate * item.qty == item.rate * (q - item.qty);
  }

  predicate NothingEntered(items: seq<Item>) {
    forall j :: 0 <= j < |items| ==> items[j].qty == 0
  }

  /** Over a valid catalog a row costs something exactly when its quantity is positive. */
  lemma ValidSubtotals(items: seq<Item>)
    requires PositiveRates(items)
    requires NonNegativeQuantities(items)
    ensures forall j :: 0 <= j < |items| ==> Subtotal(items[j]) >= 0 && (Subtotal(items[j]) > 0 <==> items[j].qty > 0)
  {
    forall j | 0 <= j < |items|
      ensures Subtotal(items[j]) >= 0 && (Subtotal(items[j]) > 0 <==> items[j].qty > 0)
    {
      SubtotalPositiveIff(items[j]);
    }
  }

  /** With positive rates and non-negative quantities, the breakdown is empty,
      and so the chart shows its prompt title, exactly when every quantity is zero. */
  lemma EmptyBreakdownIff(items: seq<Item>)
    requires PositiveRates(items)
    requires NonNegativeQuantities(items)
    ensures |Chart(items).data| == 0 <==> NothingEntered(items)
    ensures ChartTitle(Chart(items).data) == EmptyTitle <==> NothingEntered(items)
  {
    var ks := KeptIndices(items);
    ValidSubtotals(items);
    ChartBelowEntries(items, |items|);
    if |ks| > 0 {
      assert items[ks[0]].qty != 0;
    }
    if !NothingEntered(items) {
      var j :| 0 <= j < |items| && items[j].qty != 0;
      KeptIndicesComplete(items, j);
    }
    assert EmptyTitle != FilledTitle;
  }

  /** Over a valid catalog the grand total is zero exactly when every quantity is. */
  lemma ZeroGrandTotalIff(items: seq<Item>)
    requires PositiveRates(items)
    requires NonNegativeQuantities(items)
    ensures GrandTotal(items) == 0 <==> NothingEntered(items)
  {
    ValidSubtotals(items);
    var xs := Subtotals(items);
    assert forall j :: 0 <= j < |items| ==> xs[j] == Subtotal(items[j]);
    SumZeroIff(xs);
    if GrandTotal(items) == 0 {
      forall j | 0 <= j < |items| ensures items[j].qty == 0 {
        assert xs[j] == 0;
      }
    }
  }
}
