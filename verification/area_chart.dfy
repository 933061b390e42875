/**
 * The data side of the stacked area chart (`AreaChart.wrangleData` and the y-domain of
 * `updateVis`): the mean price per (date, region), pivoted into one row per date with one
 * cell per region.
 */
module AreaChart {
  import opened Options
  import opened Grouping
  import opened Stats
  import opened Sorting
  import opened Observations

  function DateOf(r: Row): Date { r.date }

  /**
   * `d3.rollup(data, v => d3.mean(v, d => d.price), d => d.date, d => d.region)`: for each
   * date, for each region observed on that date, the mean price. d3's maps key dates by
   * their value, so two rows with the same month share an entry.
   */
  function Rollup(data: seq<Row>): map<Date, map<string, Option<real>>> {
    map d | d in FirstSeen(data, DateOf) :: RegionMeans(Select(data, DateOf, d))
  }

  /** The inner rollup over the rows of one date. */
  function RegionMeans(rows: seq<Row>): map<string, Option<real>> {
    map g | g in FirstSeen(rows, RegionOf) :: Mean(Prices(Select(rows, RegionOf, g)))
  }

  /** `aggregatedData.get(date)?.get(region) || 0`. */
  function Lookup(agg: map<Date, map<string, Option<real>>>, date: Date, region: string): real {
    if date in agg && region in agg[date] then
      match agg[date][region]
      case Some(m) => m
      case None => 0.0
    else 0.0
  }

  /** The rows observed on `date` in `region`, in input order. */
  function CellRows(data: seq<Row>, date: Date, region: string): seq<Row> {
    Select(Select(data, DateOf, date), RegionOf, region)
  }

  /**
   * A cell of the rollup holds the mean price of exactly the rows of its date and region,
   * and the lookup gives 0 when there are none.
   */
  lemma CellValue(data: seq<Row>, date: Date, region: string)
    ensures forall r :: r in CellRows(data, date, region) <==> r in data && r.date == date && r.region == region
    ensures CellRows(data, date, region) == [] ==> Lookup(Rollup(data), date, region) == 0.0
    ensures CellRows(data, date, region) != [] ==>
      Lookup(Rollup(data), date, region) == MeanPrice(CellRows(data, date, region))
  {
    var onDate := Select(data, DateOf, date);
    SelectMembers(data, DateOf, date);
    SelectMembers(onDate, RegionOf, region);
    if CellRows(data, date, region) != [] {
      assert date in Rollup(data);
      assert region in Rollup(data)[date];
    }
  }

  /** `vis.dates`: the rollup's dates in ascending order. */
  function Dates(data: seq<Row>): seq<Date> {
    var os := DateOrdinals(data);
    seq(|os|, i requires 0 <= i < |os| => FromOrdinal(os[i]))
  }

  /** The rollup's dates as ordinals, sorted ascending. */
  function DateOrdinals(data: seq<Row>): seq<int> {
    SortedDistinct(Map(FirstSeen(data, DateOf), Ordinal))
  }

  /** The dates listed are strictly ascending and are exactly the dates observed. */
  lemma DatesSorted(data: seq<Row>)
    ensures forall i, j :: 0 <= i < j < |Dates(data)| ==> Before(Dates(data)[i], Dates(data)[j])
    ensures forall d :: d in Dates(data) <==> exists i :: 0 <= i < |data| && data[i].date == d
  {
    var ks := FirstSeen(data, DateOf);
    var os := DateOrdinals(data);
    var ds := Dates(data);
    SortedDistinctSorted(Map(ks, Ordinal));
    FirstSeenKeys(data, DateOf);
    forall i, j | 0 <= i < j < |ds|
      ensures Before(ds[i], ds[j])
    {
      assert Ordinal(ds[i]) == os[i] && Ordinal(ds[j]) == os[j];
    }
    forall d
      ensures d in ds <==> d in ks
    {
      if d in ds {
        var i :| 0 <= i < |ds| && ds[i] == d;
        assert os[i] in Map(ks, Ordinal);
        var m :| 0 <= m < |ks| && Map(ks, Ordinal)[m] == os[i];
        OrdinalOrder(ks[m], d);
      }
      if d in ks {
        var m :| 0 <= m < |ks| && ks[m] == d;
        assert Map(ks, Ordinal)[m] == Ordinal(d);
        assert Ordinal(d) in os;
        var i :| 0 <= i < |os| && os[i] == Ordinal(d);
        assert Ordinal(ds[i]) == os[i];
        OrdinalOrder(ds[i], d);
        assert ds[i] in ds;
      }
    }
  }

  /** `vis.regions`: the distinct regions in first-seen order. */
  function Regions(data: seq<Row>): seq<string> {
    FirstSeen(data, RegionOf)
  }

  /** The regions listed are distinct and are exactly the regions observed. */
  lemma RegionsListed(data: seq<Row>)
    ensures NoDuplicates(Regions(data))
    ensures forall g :: g in Regions(data) <==> exists i :: 0 <= i < |data| && data[i].region == g
  {
    FirstSeenDistinct(data, RegionOf);
    FirstSeenKeys(data, RegionOf);
  }

  /** One pivoted row: its date and one cell per region, aligned with `vis.regions`. */
  datatype AreaRow = AreaRow(date: Date, cells: seq<real>)

  /** The object built for one date (lines 74-78). */
  function RowOf(agg: map<Date, map<string, Option<real>>>, date: Date, regions: seq<string>): AreaRow {
    AreaRow(date, Map(regions, g => Lookup(agg, date, g)))
  }

  /** `vis.dates.map(...)`. */
  function Pivot(agg: map<Date, map<string, Option<real>>>, dates: seq<Date>, regions: seq<string>): seq<AreaRow> {
    Map(dates, d => RowOf(agg, d, regions))
  }

  /** `vis.processedData`. */
  function ProcessedData(data: seq<Row>): seq<AreaRow> {
    Pivot(Rollup(data), Dates(data), Regions(data))
  }

  /**
   * There is one row per listed date, in that order, with a cell for every listed region;
   * each cell is the mean price of its date's and region's rows, or 0 when there are none.
   */
  lemma ProcessedCells(data: seq<Row>)
    ensures |ProcessedData(data)| == |Dates(data)|
    ensures forall i :: 0 <= i < |Dates(data)| ==>
      ProcessedData(data)[i].date == Dates(data)[i] && |ProcessedData(data)[i].cells| == |Regions(data)|
    ensures forall i, j :: 0 <= i < |Dates(data)| && 0 <= j < |Regions(data)| ==>
      var rows := CellRows(data, Dates(data)[i], Regions(data)[j]);
      ProcessedData(data)[i].cells[j] == if rows == [] then 0.0 else MeanPrice(rows)
  {
    var ds := Dates(data);
    var gs := Regions(data);
    forall i, j | 0 <= i < |ds| && 0 <= j < |gs|
      ensures var rows := CellRows(data, ds[i], gs[j]);
        ProcessedData(data)[i].cells[j] == if rows == [] then 0.0 else MeanPrice(rows)
    {
      CellValue(data, ds[i], gs[j]);
    }
  }

  /** The inner `forEach` over the regions, for one date. */
  method BuildRow(agg: map<Date, map<string, Option<real>>>, date: Date, regions: seq<string>)
    returns (row: AreaRow)
    ensures row == RowOf(agg, date, regions)
  {
    var cells: seq<real> := [];
    for j := 0 to |regions|
      invariant |cells| == j
      invariant forall k :: 0 <= k < j ==> cells[k] == Lookup(agg, date, regions[k])
    {
      cells := cells + [Lookup(agg, date, regions[j])];
    }
    row := AreaRow(date, cells);
  }

  /** The outer `map` over the dates. */
  method PivotRows(agg: map<Date, map<string, Option<real>>>, dates: seq<Date>, regions: seq<string>)
    returns (rows: seq<AreaRow>)
    ensures rows == Pivot(agg, dates, regions)
  {
    rows := [];
    for i := 0 to |dates|
      invariant |rows| == i
      invariant forall k :: 0 <= k < i ==> rows[k] == RowOf(agg, dates[k], regions)
    {
      var row := BuildRow(agg, dates[i], regions);
      rows := rows + [row];
    }
  }

  /** `d3.sum(vis.regions, region => d[region])` for one row. */
  function RowTotal(row: AreaRow): real {
    Sum(row.cells)
  }

  /** `d3.max` of the row totals: undefined for no rows, otherwise the largest total. */
  function MaxTotal(rows: seq<AreaRow>): (m: Option<real>)
    ensures m.None? <==> rows == []
    ensures m.Some? ==> forall i :: 0 <= i < |rows| ==> RowTotal(rows[i]) <= m.value
    ensures m.Some? ==> exists i :: 0 <= i < |rows| && RowTotal(rows[i]) == m.value
  {
    if rows == [] then None
    else
      var front := MaxTotal(rows[..|rows| - 1]);
      var total := RowTotal(rows[|rows| - 1]);
      if front.None? || front.value < total then Some(total) else front
  }

  class AreaChart {
    var data: seq<Row>
    var dates: seq<Date>
    var regions: seq<string>
    var processedData: seq<AreaRow>
    /** The upper end of the y-scale's domain; its lower end is always 0. */
    var yMax: Option<real>

    /** The constructor; `initVis` ends by calling `wrangleData`. */
    constructor(data: seq<Row>)
      ensures this.data == data
      ensures dates == Dates(data) && regions == Regions(data)
      ensures processedData == ProcessedData(data)
      ensures yMax == MaxTotal(processedData)
    {
      this.data := data;
      new;
      WrangleData();
    }

    /** Rolls the data up, lists the dates and regions, pivots, and updates the y-domain. */
    method WrangleData()
      modifies this
      ensures data == old(data)
      ensures dates == Dates(data) && regions == Regions(data)
      ensures processedData == ProcessedData(data)
      ensures yMax == MaxTotal(processedData)
    {
      var aggregatedData := Rollup(data);
      dates := Dates(data);
      regions := Regions(data);
      processedData := PivotRows(aggregatedData, dates, regions);
      UpdateVis();
    }

    /** Sets the y-domain to [0, the largest row total]. */
    method UpdateVis()
      modifies this
      ensures data == old(data) && dates == old(dates) && regions == old(regions)
      ensures processedData == old(processedData)
      ensures yMax == MaxTotal(processedData)
    {
      yMax := MaxTotal(processedData);
    }
  }
}
