/**
  The fixed rate catalog: nine billable asset categories, each with a stable
  key, a display name, a whole-dollar monthly rate and the quantity the user
  has entered for it (zero when the page loads).
 */
module Catalog {

  datatype Item = Item(id: string, name: string, rate: int, qty: int)

  /** The catalog in display order, every quantity at its initial zero. */
  const RateData: seq<Item> := [
    Item("workstation", "Workstation", 55, 0),
    Item("small_device", "Small Device", 15, 0),
    Item("medium_device", "Medium Device", 35, 0),
    Item("large_device", "Large Device", 80, 0),
    Item("server_hw", "Server Hardware", 130, 0),
    Item("server_sw", "Server Software", 130, 0),
    Item("critical_device", "Critical Device", 90, 0),
    Item("crit_server_hw", "Critical Server Hardware", 175, 0),
    Item("crit_server_sw", "Critical Server Software", 175, 0)
  ]

  /** `b` is `a` with at most its quantities changed: same rows, same keys,
      names and rates, in the same order. */
  predicate SameCatalog(a: seq<Item>, b: seq<Item>) {
    && |a| == |b|
    && forall j :: 0 <= j < |a| ==> a[j].id == b[j].id && a[j].name == b[j].name && a[j].rate == b[j].rate
  }

  /** Every rate is a positive whole amount. */
  predicate PositiveRates(items: seq<Item>) {
    forall j :: 0 <= j < |items| ==> items[j].rate > 0
  }

  predicate NonNegativeQuantities(items: seq<Item>) {
    forall j :: 0 <= j < |items| ==> items[j].qty >= 0
  }

  /** The shape of the catalog the page starts from. */
  lemma RateDataShape()
    ensures |RateData| == 9
    ensures PositiveRates(RateData)
    ensures forall j :: 0 <= j < |RateData| ==> RateData[j].qty == 0
    ensures forall j, k :: 0 <= j < k < |RateData| ==> RateData[j].id != RateData[k].id
  {
  }
}
