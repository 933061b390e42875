/**
 * The join performed by `loadData`: each price row is tagged with its product's grocery type,
 * ratio to 100 g and unit from the mapping table, or with the "Unknown" defaults.
 * CSV fetching and parsing are outside the model: rows arrive with their date and numbers parsed.
 */
module Loader {
  import opened Observations

  /** A row of the mapping table (Products, Grocery Type, Ratio to 100 Gram, Unit). */
  datatype MappingRow = MappingRow(products: string, groceryType: string, ratioTo100Gram: real, unit: string)

  /** A row of the price table (REF_DATE, Products, VALUE, GEO), already parsed. */
  datatype PriceRow = PriceRow(refDate: Date, products: string, value: real, geo: string)

  datatype GroceryInfo = GroceryInfo(groceryType: string, ratioTo100Gram: real, unit: string)

  /** The info object used for a product missing from the mapping table. */
  const UnknownInfo := GroceryInfo("Unknown", 1.0, "Unknown")

  function InfoOf(m: MappingRow): GroceryInfo {
    GroceryInfo(m.groceryType, m.ratioTo100Gram, m.unit)
  }

  /** The contents of `groceryMap` once every mapping row has been stored, later rows overwriting. */
  function GroceryMap(rows: seq<MappingRow>): (m: map<string, GroceryInfo>)
    ensures m.Keys == set r | r in rows :: r.products
  {
    if rows == [] then map[]
    else
      var last := rows[|rows| - 1];
      assert rows == rows[..|rows| - 1] + [last];
      GroceryMap(rows[..|rows| - 1])[last.products := InfoOf(last)]
  }

  /** The forEach that fills `groceryMap` (js/main.js lines 14-21). */
  method BuildGroceryMap(groceryData: seq<MappingRow>) returns (groceryMap: map<string, GroceryInfo>)
    ensures groceryMap == GroceryMap(groceryData)
  {
    groceryMap := map[];
    for i := 0 to |groceryData|
      invariant groceryMap == GroceryMap(groceryData[..i])
    {
      var d := groceryData[i];
      groceryMap := groceryMap[d.products := InfoOf(d)];
      assert groceryData[..i + 1][..i] == groceryData[..i];
    }
    assert groceryData[..|groceryData|] == groceryData;
  }

  /** With duplicate products, the last mapping row of a product is the one kept. */
  lemma {:induction false} LastRowWins(rows: seq<MappingRow>, i: nat)
    requires i < |rows|
    requires forall j :: i < j < |rows| ==> rows[j].products != rows[i].products
    ensures rows[i].products in GroceryMap(rows)
    ensures GroceryMap(rows)[rows[i].products] == InfoOf(rows[i])
  {
    if i < |rows| - 1 {
      var front := rows[..|rows| - 1];
      LastRowWins(front, i);
    }
  }

  /** The object built for one price row. */
  function JoinRow(d: PriceRow, groceryMap: map<string, GroceryInfo>): Row {
    var info := if d.products in groceryMap then groceryMap[d.products] else UnknownInfo;
    Row(d.refDate, d.products, info.groceryType, info.ratioTo100Gram, info.unit, d.value, d.geo)
  }

  /** `priceData.map(...)`: one row per price row, in order. */
  function JoinRows(priceData: seq<PriceRow>, groceryMap: map<string, GroceryInfo>): (rows: seq<Row>)
    ensures |rows| == |priceData|
    ensures forall i :: 0 <= i < |rows| ==> rows[i] == JoinRow(priceData[i], groceryMap)
  {
    seq(|priceData|, i requires 0 <= i < |priceData| => JoinRow(priceData[i], groceryMap))
  }

  /** The `processedData` that `loadData` hands to the charts. */
  function LoadRows(groceryData: seq<MappingRow>, priceData: seq<PriceRow>): seq<Row> {
    JoinRows(priceData, GroceryMap(groceryData))
  }

  /**
   * Every price row yields exactly one row, in order, with the product, region, date and price
   * copied over; a product found in the mapping takes type, ratio and unit from its last mapping
   * row, and an unmapped product gets "Unknown", 1 and "Unknown" instead of being dropped.
   */
  lemma LoadedRow(groceryData: seq<MappingRow>, priceData: seq<PriceRow>, i: nat)
    requires i < |priceData|
    ensures |LoadRows(groceryData, priceData)| == |priceData|
    ensures var r := LoadRows(groceryData, priceData)[i];
      && r.product == priceData[i].products && r.region == priceData[i].geo
      && r.date == priceData[i].refDate && r.price == priceData[i].value
      && ((forall j :: 0 <= j < |groceryData| ==> groceryData[j].products != priceData[i].products) ==>
            r.groceryType == "Unknown" && r.ratioTo100Gram == 1.0 && r.unit == "Unknown")
      && (forall j ::
            (0 <= j < |groceryData| && groceryData[j].products == priceData[i].products &&
             forall k :: j < k < |groceryData| ==> groceryData[k].products != priceData[i].products) ==>
            r.groceryType == groceryData[j].groceryType && r.ratioTo100Gram == groceryData[j].ratioTo100Gram &&
            r.unit == groceryData[j].unit)
  {
    var m := GroceryMap(groceryData);
    forall j | 0 <= j < |groceryData| && groceryData[j].products == priceData[i].products &&
        (forall k :: j < k < |groceryData| ==> groceryData[k].products != priceData[i].products)
      ensures m[priceData[i].products] == InfoOf(groceryData[j])
    {
      LastRowWins(groceryData, j);
    }
  }
}
