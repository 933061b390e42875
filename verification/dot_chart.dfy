/**
 * The half-year aggregation of the dot chart (`DotChart.processData`): the rows are grouped by
 * grocery type, then region, then half-year, each level in first-seen order, and every half-year
 * group after the first of its (type, region) yields the change of its mean price against the
 * previous group's mean, provided that previous mean is positive.
 */
module DotChart {
  import opened Options
  import opened Grouping
  import opened Decimal
  import opened Observations
  import opened Stats

  datatype DotRecord = DotRecord(
    groceryType: string,
    region: string,
    halfYear: string,
    avgPrice: real,
    priceIncrease: real,
    date: Date)

  // ---------------------------------------------------------------------------------------
  // Half-year keys

  /** 1 for January to June, 2 for July to December. */
  function Half(d: Date): nat {
    if d.month < 6 then 1 else 2
  }

  /** `getHalfYear`: the key "<year>-H1" or "<year>-H2". */
  function HalfYear(d: Date): string {
    IntToString(d.year) + "-H" + (if d.month < 6 then "1" else "2")
  }

  /** Reads a half-year key back into its year and half; None for any other text. */
  function ParseHalfYear(key: string): Option<(int, nat)> {
    if |key| < 3 then None
    else
      var n := |key|;
      var year := ParseInt(key[..n - 3]);
      if year.Some? && key[n - 3] == '-' && key[n - 2] == 'H' && (key[n - 1] == '1' || key[n - 1] == '2') then
        Some((year.value, if key[n - 1] == '1' then 1 else 2))
      else None
  }

  /** A key reads back as the year and the half of its date. */
  lemma HalfYearRoundTrip(d: Date)
    ensures ParseHalfYear(HalfYear(d)) == Some((d.year, Half(d)))
  {
    var key := HalfYear(d);
    var n := |key|;
    IntToStringRoundTrip(d.year);
    assert key[..n - 3] == IntToString(d.year);
  }

  /** Two dates share a key exactly when they share the year and the half. */
  lemma HalfYearSameKey(a: Date, b: Date)
    ensures HalfYear(a) == HalfYear(b) <==> a.year == b.year && Half(a) == Half(b)
  {
    HalfYearRoundTrip(a);
    HalfYearRoundTrip(b);
  }

  function HalfKey(r: Row): string {
    HalfYear(r.date)
  }

  // ---------------------------------------------------------------------------------------
  // One (type, region) series

  /** The half-year groups of the rows (the innermost level of the grouping), in first-seen order. */
  function HalfYearGroups(rows: seq<Row>): seq<(string, seq<Row>)> {
    GroupBy(rows, HalfKey)
  }

  /** Every row of a half-year group lies in that half-year, and every row is in some group. */
  lemma HalfYearGroupsKeys(rows: seq<Row>)
    ensures NonEmptyGroups(HalfYearGroups(rows))
    ensures forall k, x :: 0 <= k < |HalfYearGroups(rows)| && x in HalfYearGroups(rows)[k].1 ==>
      x in rows && HalfKey(x) == HalfYearGroups(rows)[k].0
    ensures forall x :: x in rows ==>
      exists k :: 0 <= k < |HalfYearGroups(rows)| && HalfYearGroups(rows)[k].0 == HalfKey(x)
  {
    GroupByGroups(rows, HalfKey);
  }

  /** What `previousAvgPrice` holds when the k-th group is reached: 0 first, then the previous group's mean. */
  function Previous(gs: seq<(string, seq<Row>)>, k: nat): real
    requires NonEmptyGroups(gs) && k <= |gs|
  {
    if k == 0 then 0.0 else GroupMean(gs, k - 1)
  }

  /** The record of the k-th group, if the mean before it is positive. */
  function RecordAt(t: string, region: string, gs: seq<(string, seq<Row>)>, k: nat): Option<DotRecord>
    requires NonEmptyGroups(gs) && k < |gs|
  {
    var prev := Previous(gs, k);
    if prev > 0.0 then
      var avg := GroupMean(gs, k);
      Some(DotRecord(t, region, gs[k].0, avg, Change(prev, avg), gs[k].1[0].date))
    else None
  }

  /** The record of the k-th group, as a function of k. */
  function RecordFn(t: string, region: string, gs: seq<(string, seq<Row>)>): int --> Option<DotRecord> {
    k requires NonEmptyGroups(gs) && 0 <= k < |gs| => RecordAt(t, region, gs, k)
  }

  /** The records of all the half-year groups of one (type, region). */
  function RegionRecords(t: string, region: string, rows: seq<Row>): seq<DotRecord> {
    var gs := HalfYearGroups(rows);
    HalfYearGroupsKeys(rows);
    Collect(|gs|, RecordFn(t, region, gs))
  }

  /**
   * A group yields a record exactly when it is not the first and the previous group's mean is
   * positive. The record carries the group's key, its mean, the change against the previous
   * mean and the date of the group's first row.
   */
  lemma RecordAtFields(t: string, region: string, gs: seq<(string, seq<Row>)>, k: nat)
    requires NonEmptyGroups(gs) && k < |gs|
    ensures RecordAt(t, region, gs, k).Some? <==> k >= 1 && GroupMean(gs, k - 1) > 0.0
    ensures var r := RecordAt(t, region, gs, k);
      r.Some? ==>
        && r.value.groceryType == t && r.value.region == region
        && r.value.halfYear == gs[k].0
        && Mean(Prices(gs[k].1)) == Some(r.value.avgPrice)
        && r.value.priceIncrease == Change(GroupMean(gs, k - 1), r.value.avgPrice)
        && r.value.date == gs[k].1[0].date
  {
  }

  /** The first group never yields a record, so a series has fewer records than groups. */
  lemma RegionRecordsCount(t: string, region: string, rows: seq<Row>)
    ensures |RegionRecords(t, region, rows)| <= if rows == [] then 0 else |HalfYearGroups(rows)| - 1
  {
    var gs := HalfYearGroups(rows);
    HalfYearGroupsKeys(rows);
    CollectSkipsFirst(|gs|, RecordFn(t, region, gs));
    if rows != [] {
      assert rows[0] in rows;
    }
  }

  /**
   * Every record of a series carries its type and region, and lies in its half-year: the key of
   * its date is its `halfYear`.
   */
  lemma RegionRecordsLabels(t: string, region: string, rows: seq<Row>)
    ensures forall r :: r in RegionRecords(t, region, rows) ==>
      r.groceryType == t && r.region == region && HalfYear(r.date) == r.halfYear
  {
    var gs := HalfYearGroups(rows);
    HalfYearGroupsKeys(rows);
    var f := RecordFn(t, region, gs);
    CollectMembers(|gs|, f);
    forall r: DotRecord | r in Collect(|gs|, f)
      ensures r.groceryType == t && r.region == region && HalfYear(r.date) == r.halfYear
    {
      var k :| 0 <= k < |gs| && f(k) == Some(r);
      var first := gs[k].1[0];
      assert first in gs[k].1;
      assert HalfKey(first) == gs[k].0;
      assert r.halfYear == gs[k].0 && r.date == first.date;
    }
  }

  /** One (type, region) of lines 30-49: its rows grouped by half-year, then the loop over the groups. */
  method RegionSeries(groceryType: string, region: string, rows: seq<Row>) returns (recs: seq<DotRecord>)
    ensures recs == RegionRecords(groceryType, region, rows)
  {
    var halfYearMap := HalfYearGroups(rows);
    HalfYearGroupsKeys(rows);
    recs := GroupSeries(groceryType, region, halfYearMap);
  }

  /** The `halfYearMap.forEach` loop of lines 31-49. */
  method GroupSeries(groceryType: string, region: string, halfYearMap: seq<(string, seq<Row>)>)
    returns (recs: seq<DotRecord>)
    requires NonEmptyGroups(halfYearMap)
    ensures recs == Collect(|halfYearMap|, RecordFn(groceryType, region, halfYearMap))
  {
    recs := [];
    var previousAvgPrice := 0.0;
    for k := 0 to |halfYearMap|
      invariant previousAvgPrice == Previous(halfYearMap, k)
      invariant recs == Collect(k, RecordFn(groceryType, region, halfYearMap))
    {
      var halfYear := halfYearMap[k].0;
      var group := halfYearMap[k].1;
      var avgPrice := MeanPrice(group);
      var date := group[0].date;
      if previousAvgPrice > 0.0 {
        var priceIncrease := Change(previousAvgPrice, avgPrice);
        recs := recs + [DotRecord(groceryType, region, halfYear, avgPrice, priceIncrease, date)];
      }
      previousAvgPrice := avgPrice;
    }
  }

  // ---------------------------------------------------------------------------------------
  // Types and regions

  /** The series of each region among rows of one type. */
  function RegionsOf(t: string, typeRows: seq<Row>): string -> seq<DotRecord> {
    region => RegionRecords(t, region, Select(typeRows, RegionOf, region))
  }

  /** The records of one grocery type: its regions' series in first-seen order. */
  function TypeRecords(t: string, typeRows: seq<Row>): seq<DotRecord> {
    var regions := FirstSeen(typeRows, RegionOf);
    Concat(regions, |regions|, RegionsOf(t, typeRows))
  }

  /** The series of each type. */
  function TypesOf(data: seq<Row>): string -> seq<DotRecord> {
    t => TypeRecords(t, Select(data, TypeOf, t))
  }

  /** The result of `processData(data)`: the types' records in first-seen order. */
  function DotRecords(data: seq<Row>): seq<DotRecord> {
    var types := FirstSeen(data, TypeOf);
    Concat(types, |types|, TypesOf(data))
  }

  /** The `regionMap.forEach` loop of lines 29-50 for one grocery type. */
  method TypeSeries(groceryType: string, typeRows: seq<Row>) returns (recs: seq<DotRecord>)
    ensures recs == TypeRecords(groceryType, typeRows)
  {
    var regions := FirstSeen(typeRows, RegionOf);
    recs := [];
    for i := 0 to |regions|
      invariant recs == Concat(regions, i, RegionsOf(groceryType, typeRows))
    {
      var regionRows := Select(typeRows, RegionOf, regions[i]);
      var series := RegionSeries(groceryType, regions[i], regionRows);
      recs := recs + series;
    }
  }

  /** `processData` (lines 17-54): the loop over the grocery types in first-seen order. */
  method ProcessData(data: seq<Row>) returns (processedData: seq<DotRecord>)
    ensures processedData == DotRecords(data)
  {
    var types := FirstSeen(data, TypeOf);
    processedData := [];
    for i := 0 to |types|
      invariant processedData == Concat(types, i, TypesOf(data))
    {
      var typeRows := Select(data, TypeOf, types[i]);
      var recs := TypeSeries(types[i], typeRows);
      processedData := processedData + recs;
    }
  }

  function RecordType(r: DotRecord): string { r.groceryType }
  function RecordRegion(r: DotRecord): string { r.region }

  /** Every record of a type's records carries that type. */
  lemma TypeRecordsLabels(t: string, typeRows: seq<Row>)
    ensures forall r :: r in TypeRecords(t, typeRows) ==> r.groceryType == t
  {
    var regions := FirstSeen(typeRows, RegionOf);
    var f := RegionsOf(t, typeRows);
    forall u, r | r in f(u)
      ensures RecordType(r) == t
    {
      RegionRecordsLabels(t, u, Select(typeRows, RegionOf, u));
    }
    ConcatAll(regions, |regions|, f, (r: DotRecord) => RecordType(r) == t);
  }

  /**
   * The records of type t in the output are t's own records, computed from t's rows alone, and
   * a type without rows has none.
   */
  lemma DotRecordsOfType(data: seq<Row>, t: string)
    ensures Select(DotRecords(data), RecordType, t) ==
      if exists r :: r in data && r.groceryType == t then TypeRecords(t, Select(data, TypeOf, t)) else []
  {
    var f := TypesOf(data);
    forall u, r | r in f(u)
      ensures RecordType(r) == u
    {
      TypeRecordsLabels(u, Select(data, TypeOf, u));
    }
    GroupedSelect(data, TypeOf, f, RecordType, t);
  }

  /**
   * Within a type's records, those of region g are the series of g computed from the rows of
   * that type and region alone, and a region without rows has none.
   */
  lemma TypeRecordsOfRegion(t: string, typeRows: seq<Row>, g: string)
    ensures Select(TypeRecords(t, typeRows), RecordRegion, g) ==
      if exists r :: r in typeRows && r.region == g then RegionRecords(t, g, Select(typeRows, RegionOf, g)) else []
  {
    var f := RegionsOf(t, typeRows);
    forall u, r | r in f(u)
      ensures RecordRegion(r) == u
    {
      RegionRecordsLabels(t, u, Select(typeRows, RegionOf, u));
    }
    GroupedSelect(typeRows, RegionOf, f, RecordRegion, g);
  }

}
