/**
  The quantity handler: the raw text of one row's number box is read with
  `parseInt`, NaN and negative results are forced to zero, the value is
  stored in that row alone, and the totals are recomputed.
 */
module QuantityInput {
  import opened JsParseInt
  import opened Catalog
  import opened Pricing

  /** The quantity stored for raw input text. */
  function NormalizeQuantity(raw: string): (q: int)
    ensures q >= 0
    ensures q == 0 || ParseIntPrefix(raw) == Some(q)
    ensures ParseIntPrefix(raw).Some? && ParseIntPrefix(raw).value >= 0 ==> ParseIntPrefix(raw) == Some(q)
  {
    match ParseIntPrefix(raw)
    case None => 0
    case Some(v) => if v < 0 then 0 else v
  }

  /** Store the normalised quantity of `raw` in row `i` and nowhere else. */
  function SetQuantity(items: seq<Item>, i: nat, raw: string): (r: seq<Item>)
    requires i < |items|
    ensures SameCatalog(items, r)
    ensures r[i].qty == NormalizeQuantity(raw) && r[i].qty >= 0
    ensures forall j :: 0 <= j < |items| && j != i ==> r[j] == items[j]
  {
    items[i := items[i].(qty := NormalizeQuantity(raw))]
  }

  /** A reachable pricing state: the catalog's rows with non-negative quantities. */
  predicate Valid(items: seq<Item>) {
    SameCatalog(RateData, items) && NonNegativeQuantities(items)
  }

  /** One edit of one number box. */
  datatype Input = Input(index: nat, raw: string)

  /** The state after a sequence of edits, each naming a catalog row. */
  function ApplyInputs(items: seq<Item>, inputs: seq<Input>): (r: seq<Item>)
    requires forall k :: 0 <= k < |inputs| ==> inputs[k].index < |items|
    ensures SameCatalog(items, r)
    decreases |inputs|
  {
    if |inputs| == 0 then items
    else ApplyInputs(SetQuantity(items, inputs[0].index, inputs[0].raw), inputs[1..])
  }

  lemma InitialStateValid()
    ensures Valid(RateData)
    ensures NothingEntered(RateData)
    ensures GrandTotal(RateData) == 0 && TotalItems(RateData) == 0
    ensures ChartTitle(Chart(RateData).data) == EmptyTitle
  {
    RateDataShape();
    ZeroGrandTotalIff(RateData);
    EmptyBreakdownIff(RateData);
    SumZeroIff(Quantities(RateData));
  }

  lemma ValidRatesPositive(items: seq<Item>)
    requires Valid(items)
    ensures PositiveRates(items)
  {
    RateDataShape();
  }

  lemma SetQuantityPreservesValid(items: seq<Item>, i: nat, raw: string)
    requires Valid(items)
    requires i < |items|
    ensures Valid(SetQuantity(items, i, raw))
  {
  }

  /** An edit moves the totals by the change in the edited row alone. */
  lemma TotalsAfterInput(items: seq<Item>, i: nat, raw: string)
    requires i < |items|
    ensures var next := SetQuantity(items, i, raw);
      && GrandTotal(next) == GrandTotal(items) - Subtotal(items[i]) + Subtotal(next[i])
      && TotalItems(next) == TotalItems(items) - items[i].qty + next[i].qty
  {
    TotalsAfterQuantityChange(items, i, NormalizeQuantity(raw));
  }

  /** After an edit of a valid state the totals are still non-negative. */
  lemma ValidTotalsAfterInput(items: seq<Item>, i: nat, raw: string)
    requires Valid(items)
    requires i < |items|
    ensures var next := SetQuantity(items, i, raw);
      Valid(next) && GrandTotal(next) >= 0 && TotalItems(next) >= 0
  {
    var next := SetQuantity(items, i, raw);
    SetQuantityPreservesValid(items, i, raw);
    ValidRatesPositive(next);
    TotalsNonNegative(next);
  }

  /** Every state the page can reach from load is valid. */
  lemma {:induction false} ReachableValid(inputs: seq<Input>)
    requires forall k :: 0 <= k < |inputs| ==> inputs[k].index < |RateData|
    ensures Valid(ApplyInputs(RateData, inputs))
  {
    ReachableFromValid(RateData, inputs);
  }

  lemma {:induction false} ReachableFromValid(items: seq<Item>, inputs: seq<Input>)
    requires Valid(items)
    requires forall k :: 0 <= k < |inputs| ==> inputs[k].index < |items|
    ensures Valid(ApplyInputs(items, inputs))
    decreases |inputs|
  {
    if |inputs| > 0 {
      var next := SetQuantity(items, inputs[0].index, inputs[0].raw);
      SetQuantityPreservesValid(items, inputs[0].index, inputs[0].raw);
      ReachableFromValid(next, inputs[1..]);
    }
  }

  /** The handler: update one row, then recompute. The totals move by exactly
      the change in that row; in a valid state the grand total stays
      non-negative. */
  method HandleInputChange(items: seq<Item>, index: nat, raw: string) returns (next: seq<Item>, t: Totals)
    requires index < |items|
    ensures next == SetQuantity(items, index, raw)
    ensures t.grandTotal == GrandTotal(items) - Subtotal(items[index]) + Subtotal(next[index])
    ensures t.totalItems == TotalItems(items) - items[index].qty + next[index].qty
    ensures |t.subtotals| == |next| && forall j :: 0 <= j < |next| ==> t.subtotals[j] == Subtotal(next[j])
    ensures t.grandTotal == GrandTotal(next) && t.totalItems == TotalItems(next)
    ensures t.chart == Chart(next)
    ensures Valid(items) ==> Valid(next) && t.grandTotal >= 0 && t.totalItems >= 0
  {
    next := SetQuantity(items, index, raw);
    t := Recompute(next);
    TotalsAfterInput(items, index, raw);
    if Valid(items) {
      ValidTotalsAfterInput(items, index, raw);
    }
  }

  // ---------------------------------------------------------------------------
  // What normalisation does to the inputs a number box can hold.

  /** Any non-negative numeral is stored as its value. */
  lemma NormalizeDecimal(n: nat)
    ensures NormalizeQuantity(Decimal(n)) == n
  {
    ParseDecimal(n, []);
    assert Decimal(n) + [] == Decimal(n);
  }

  /** Any negative numeral is stored as zero. */
  lemma NormalizeNegative(n: nat)
    ensures NormalizeQuantity("-" + Decimal(n)) == 0
  {
    ParseNegativeDecimal(n);
  }

  /** Text with no decimal digit (empty, or letters only) is stored as zero. */
  lemma NormalizeNoDigits(raw: string)
    requires forall k :: 0 <= k < |raw| ==> !('0' <= raw[k] <= '9')
    ensures NormalizeQuantity(raw) == 0
  {
    NoDigitsIsNaN(raw);
  }

  /** A typed numeral is stored as its value and a negative one as 0: "7" is 7, "-5" is 0. */
  lemma NormalizeNumeralExamples()
    ensures NormalizeQuantity("7") == 7
    ensures NormalizeQuantity("-5") == 0
  {
    NormalizeDecimal(7);
    NormalizeNegative(5);
    assert Decimal(7) == "7";
    assert "-" + Decimal(5) == "-5";
  }

  /** Text with no digit is stored as 0: "abc" and "" are. */
  lemma NormalizeNaNExamples()
    ensures NormalizeQuantity("abc") == 0
    ensures NormalizeQuantity("") == 0
  {
    var abc := "abc";
    forall k | 0 <= k < |abc| ensures !('0' <= abc[k] <= '9') {
      assert abc[k] == 'a' || abc[k] == 'b' || abc[k] == 'c';
    }
    NormalizeNoDigits(abc);
    NormalizeNoDigits("");
  }

  /** Two workstations, then three small devices, from the initial page. */
  lemma TwoRowScenario()
    ensures var s1 := SetQuantity(RateData, 0, "2");
      var s2 := SetQuantity(s1, 1, "3");
      && GrandTotal(s1) == 110
      && GrandTotal(s2) == 155
      && TotalItems(s2) == 5
      && Chart(s2) == Breakdown(["Workstation", "Small Device"], [110, 45], ["#78716c", "#a8a29e"])
  {
    ScenarioInputs();
    var s1 := SetQuantity(RateData, 0, "2");
    var s2 := SetQuantity(s1, 1, "3");
    ScenarioTotals(s1, s2);
    ScenarioChart(s1, s2);
  }

  lemma ScenarioInputs()
    ensures NormalizeQuantity("2") == 2 && NormalizeQuantity("3") == 3
  {
    NormalizeDecimal(2);
    NormalizeDecimal(3);
    assert Decimal(2) == "2" && Decimal(3) == "3";
  }

  lemma ScenarioTotals(s1: seq<Item>, s2: seq<Item>)
    requires s1 == RateData[0 := RateData[0].(qty := 2)]
    requires s2 == s1[1 := s1[1].(qty := 3)]
    ensures GrandTotal(s1) == 110 && GrandTotal(s2) == 155
    ensures TotalItems(s1) == 2 && TotalItems(s2) == 5
  {
    InitialStateValid();
    TotalsAfterQuantityChange(RateData, 0, 2);
    TotalsAfterQuantityChange(s1, 1, 3);
  }

  lemma ScenarioChart(s1: seq<Item>, s2: seq<Item>)
    requires s1 == RateData[0 := RateData[0].(qty := 2)]
    requires s2 == s1[1 := s1[1].(qty := 3)]
    ensures Chart(s2) == Breakdown(["Workstation", "Small Device"], [110, 45], ["#78716c", "#a8a29e"])
  {
    RateDataShape();
    assert s2[0] == Item("workstation", "Workstation", 55, 2);
    assert s2[1] == Item("small_device", "Small Device", 15, 3);
    forall j | 2 <= j < |s2| ensures Subtotal(s2[j]) <= 0 {
      assert s2[j] == RateData[j];
      NoUnitsNoCost(s2[j]);
    }
    FirstTwoIndices(s2);
    FirstTwoKept(s2);
    assert ChartColor(0) == "#78716c" && ChartColor(1) == "#a8a29e";
  }

  /** When exactly the first two rows are kept, the breakdown lists exactly those two. */
  lemma FirstTwoKept(items: seq<Item>)
    requires |items| >= 2
    requires KeptIndices(items) == [0, 1]
    ensures Chart(items) == Breakdown([items[0].name, items[1].name], [Subtotal(items[0]), Subtotal(items[1])], [ChartColor(0), ChartColor(1)])
  {
    ChartBelowEntries(items, |items|);
    var c := Chart(items);
    assert c.labels == [c.labels[0], c.labels[1]];
    assert c.data == [c.data[0], c.data[1]];
    assert c.colors == [c.colors[0], c.colors[1]];
  }

  /** When only the first two rows cost something, only they are kept. */
  lemma FirstTwoIndices(items: seq<Item>)
    requires |items| >= 2
    requires Subtotal(items[0]) > 0 && Subtotal(items[1]) > 0
    requires forall j :: 2 <= j < |items| ==> Subtotal(items[j]) <= 0
    ensures KeptIndices(items) == [0, 1]
  {
    var ks := KeptIndices(items);
    KeptIndicesComplete(items, 0);
    KeptIndicesComplete(items, 1);
    assert forall k :: 0 <= k < |ks| ==> ks[k] < 2;
    OnlyFirstTwo(ks);
  }

  lemma OnlyFirstTwo(ks: seq<nat>)
    requires forall k, l :: 0 <= k < l < |ks| ==> ks[k] < ks[l]
    requires forall k :: 0 <= k < |ks| ==> ks[k] < 2
    requires 0 in ks && 1 in ks
    ensures ks == [0, 1]
  {
    var k0 :| 0 <= k0 < |ks| && ks[k0] == 0;
    var k1 :| 0 <= k1 < |ks| && ks[k1] == 1;
    assert k0 < k1;
    AscendingAtLeastPosition(ks, |ks| - 1);
    AscendingAtLeastPosition(ks, 1);
  }

  /** A strictly ascending sequence of naturals has ks[k] >= k. */
  lemma {:induction false} AscendingAtLeastPosition(ks: seq<nat>, k: nat)
    requires forall a, b :: 0 <= a < b < |ks| ==> ks[a] < ks[b]
    requires k < |ks|
    ensures ks[k] >= k
  {
    if k > 0 {
      AscendingAtLeastPosition(ks, k - 1);
    }
  }
}
