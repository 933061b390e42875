/**
 * The data side of the bar chart (`BarChart.processData`): for every product with a 2020
 * observation, the percentage change from its first 2020 price to its last price.
 */
module BarChart {
  import opened Options
  import opened Grouping
  import opened Stats
  import opened Observations

  /** One bar: a product and its price change since 2020, in percent. */
  datatype BarRecord = BarRecord(product: string, priceChange: real)

  predicate In2020(r: Row) {
    r.date.year == 2020
  }

  /** `data2020`: the first row of the group observed in 2020, if any. */
  function Base(values: seq<Row>): Option<Row> {
    Find(values, In2020)
  }

  /**
   * The division by `data2020.price` (line 19) is unguarded; the model asks of its callers
   * that a base price, when there is one, is not zero.
   */
  predicate BaseNonZero(values: seq<Row>) {
    Base(values).Some? ==> Base(values).value.price != 0.0
  }

  /** Every product's base price is non-zero. */
  ghost predicate BasesNonZero(data: seq<Row>) {
    forall p :: BaseNonZero(Select(data, ProductOf, p))
  }

  /** Every group's base price is non-zero. */
  predicate GroupBasesNonZero(gs: seq<(string, seq<Row>)>) {
    forall k :: 0 <= k < |gs| ==> BaseNonZero(gs[k].1)
  }

  lemma ProductGroupsBaseNonZero(data: seq<Row>)
    requires BasesNonZero(data)
    ensures GroupBasesNonZero(GroupBy(data, ProductOf))
  {
  }

  /** The rows of one product, in input order. */
  function ProductRows(data: seq<Row>, product: string): seq<Row> {
    Select(data, ProductOf, product)
  }

  /** What one iteration of `groupedData.forEach` pushes: nothing unless the group has a 2020 row. */
  function ProductRecord(product: string, values: seq<Row>): Option<BarRecord>
    requires BaseNonZero(values)
  {
    match Base(values)
    case None => None
    case Some(data2020) =>
      var latestData := values[|values| - 1];
      Some(BarRecord(product, Change(data2020.price, latestData.price) * 100.0))
  }

  /** The record of the k-th product group. */
  function RecordFn(gs: seq<(string, seq<Row>)>): int --> Option<BarRecord> {
    k requires 0 <= k < |gs| && BaseNonZero(gs[k].1) => ProductRecord(gs[k].0, gs[k].1)
  }

  /** Applying the record function to k gives the record of the k-th group. */
  lemma RecordFnAt(gs: seq<(string, seq<Row>)>, k: int)
    requires 0 <= k < |gs| && BaseNonZero(gs[k].1)
    ensures RecordFn(gs)(k) == ProductRecord(gs[k].0, gs[k].1)
  {
  }

  /** The result of `processData`. */
  function BarRecords(data: seq<Row>): seq<BarRecord>
    requires BasesNonZero(data)
  {
    var gs := GroupBy(data, ProductOf);
    Collect(|gs|, RecordFn(gs))
  }

  /** A product is charted exactly when one of its rows is from 2020. */
  function HasBase(data: seq<Row>): string -> bool {
    product => Base(ProductRows(data, product)).Some?
  }

  /** The product of a record. */
  function RecordProduct(r: BarRecord): string {
    r.product
  }

  /**
   * The bars name exactly the products observed in 2020, each once, in the order in which
   * the products first occur in the data.
   */
  lemma BarRecordsOrder(data: seq<Row>)
    requires BasesNonZero(data)
    ensures Map(BarRecords(data), RecordProduct) == Filter(FirstSeen(data, ProductOf), HasBase(data))
  {
    var gs := GroupBy(data, ProductOf);
    var ks := FirstSeen(data, ProductOf);
    assert ks[..|gs|] == ks;
    CollectKeys(ks, |gs|, RecordFn(gs), HasBase(data), RecordProduct);
  }

  /**
   * The base of a product is its first row observed in 2020, in input order, and it has none
   * exactly when none of its rows is from 2020.
   */
  lemma BaseIsFirst2020(data: seq<Row>, product: string)
    ensures Base(ProductRows(data, product)).None? <==>
      forall i :: 0 <= i < |data| ==> !(data[i].product == product && data[i].date.year == 2020)
    ensures Base(ProductRows(data, product)).Some? ==>
      exists i :: (0 <= i < |data| && data[i] == Base(ProductRows(data, product)).value &&
        data[i].product == product && data[i].date.year == 2020 &&
        forall j :: 0 <= j < i ==> !(data[j].product == product && data[j].date.year == 2020))
  {
    SelectFind(data, ProductOf, product, In2020);
  }

  /** The latest row of a product is its last row in input order, whatever its date. */
  lemma LatestIsLast(data: seq<Row>, product: string)
    requires ProductRows(data, product) != []
    ensures exists i :: (0 <= i < |data| &&
      data[i] == ProductRows(data, product)[|ProductRows(data, product)| - 1] &&
      data[i].product == product &&
      forall j :: i < j < |data| ==> data[j].product != product)
  {
    SelectLast(data, ProductOf, product);
  }

  /**
   * Each bar's change is the percentage from its product's base price to the price of its
   * product's latest row, and zero when that latest row is the base itself.
   */
  lemma BarRecordValues(data: seq<Row>)
    requires BasesNonZero(data)
    ensures forall r :: r in BarRecords(data) ==>
      && Base(ProductRows(data, r.product)).Some?
      && var base := Base(ProductRows(data, r.product)).value;
         var latest := ProductRows(data, r.product)[|ProductRows(data, r.product)| - 1];
         && r.priceChange == Change(base.price, latest.price) * 100.0
         && (latest == base ==> r.priceChange == 0.0)
  {
    var gs := GroupBy(data, ProductOf);
    var f := RecordFn(gs);
    ProductGroupsBaseNonZero(data);
    CollectMembers(|gs|, f);
    forall r | r in BarRecords(data)
      ensures Base(ProductRows(data, r.product)).Some?
      ensures var base := Base(ProductRows(data, r.product)).value;
        var latest := ProductRows(data, r.product)[|ProductRows(data, r.product)| - 1];
        && r.priceChange == Change(base.price, latest.price) * 100.0
        && (latest == base ==> r.priceChange == 0.0)
    {
      var k :| 0 <= k < |gs| && f(k) == Some(r);
      RecordFnAt(gs, k);
      assert gs[k].1 == ProductRows(data, r.product);
      var base := Base(gs[k].1).value;
      ChangeScaled(base.price, base.price);
    }
  }

  /** The loop of lines 13-25. */
  method ProcessData(data: seq<Row>) returns (processedData: seq<BarRecord>)
    requires BasesNonZero(data)
    ensures processedData == BarRecords(data)
  {
    var groupedData := GroupBy(data, ProductOf);
    ProductGroupsBaseNonZero(data);
    processedData := [];
    ghost var f := RecordFn(groupedData);
    for k := 0 to |groupedData|
      invariant processedData == Collect(k, f)
    {
      processedData := VisitProduct(groupedData, k, processedData);
    }
  }

  /** One iteration of `groupedData.forEach`: push the k-th product's record, if it has one. */
  method VisitProduct(groupedData: seq<(string, seq<Row>)>, k: nat, processedData: seq<BarRecord>)
    returns (pushed: seq<BarRecord>)
    requires k < |groupedData| && GroupBasesNonZero(groupedData)
    ensures pushed == processedData + RecordFn(groupedData)(k).ToSeq()
  {
    var record := CompareWith2020(groupedData[k].0, groupedData[k].1);
    RecordFnAt(groupedData, k);
    pushed := processedData;
    if record.Some? {
      pushed := pushed + [record.value];
    }
  }

  /**
   * The body of the loop for one product: there is no record exactly when none of its rows is
   * from 2020; otherwise the record is the percentage change from the first 2020 row's price
   * to the last row's price.
   */
  method CompareWith2020(product: string, values: seq<Row>) returns (record: Option<BarRecord>)
    requires BaseNonZero(values)
    ensures record == ProductRecord(product, values)
    ensures record.None? <==> forall i :: 0 <= i < |values| ==> values[i].date.year != 2020
    ensures record.Some? ==> exists i :: (0 <= i < |values| && values[i].date.year == 2020 &&
      (forall j :: 0 <= j < i ==> values[j].date.year != 2020) &&
      values[i].price != 0.0 &&
      record.value.product == product &&
      record.value.priceChange == (values[|values| - 1].price - values[i].price) / values[i].price * 100.0)
  {
    FindFirst(values, In2020);
    var data2020 := Base(values);
    if data2020.None? {
      return None;
    }
    var latestData := values[|values| - 1];
    var priceChange := Change(data2020.value.price, latestData.price) * 100.0;
    record := Some(BarRecord(product, priceChange));
  }

  class BarChart {
    var data: seq<Row>
    var processedData: seq<BarRecord>

    /** The constructor; `initVis` stores `processData(data)` (line 70). */
    constructor(data: seq<Row>)
      requires BasesNonZero(data)
      ensures this.data == data && processedData == BarRecords(data)
    {
      var records := ProcessData(data);
      this.data := data;
      processedData := records;
    }
  }
}
