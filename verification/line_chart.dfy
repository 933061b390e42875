/**
 * The interval aggregation of the line chart (`LineChart.processData`): per grocery type, either
 * year-over-year changes between consecutive years present, or one rolling-window record per
 * calendar year of the whole data span.
 */
module LineChart {
  import opened Options
  import opened Grouping
  import opened Stats
  import opened Sorting
  import opened Decimal
  import opened Observations
  import opened Yearly

  /** A point of a grocery type's line. `comparison` exists only in year-over-year records, `numComparisons` only in rolling ones. */
  datatype LineRecord = LineRecord(
    groceryType: string,
    date: Date,
    avgPrice: real,
    priceIncrease: real,
    period: string,
    comparison: Option<string>,
    dataPoints: nat,
    numComparisons: Option<nat>)

  /** The number of years an interval selector stands for; any unknown selector means eight. */
  function WindowSize(interval: string): (w: nat)
    ensures w == 1 <==> interval == "1-year"
    ensures w == 2 <==> interval == "2-year"
    ensures w == 4 <==> interval == "4-year"
    ensures w == 8 <==> interval != "1-year" && interval != "2-year" && interval != "4-year"
  {
    if interval == "8-year" then 8
    else if interval == "4-year" then 4
    else if interval == "2-year" then 2
    else if interval == "1-year" then 1
    else 8
  }

  // ---------------------------------------------------------------------------------------
  // Yearly means

  /** d3.mean of the prices of a year with rows. */
  function YearMean(rows: seq<Row>, year: int): (m: real)
    requires PositivePrices(rows) && YearRows(rows, year) != []
    ensures m > 0.0
  {
    YearRowsMembers(rows, year);
    MeanPricePositive(YearRows(rows, year));
    MeanPrice(YearRows(rows, year))
  }

  /** The change from the (k-1)-th year present to the k-th, as a function of k. */
  function YearChangeFn(rows: seq<Row>): int --> real {
    k requires PositivePrices(rows) && 1 <= k < |Years(rows)| =>
      YearsHaveRows(rows);
      Change(YearMean(rows, Years(rows)[k - 1]), YearMean(rows, Years(rows)[k]))
  }

  /** The changes between consecutive years among the first n years present, as the loop pushes them. */
  function YearChanges(rows: seq<Row>, n: nat): (cs: seq<real>)
    requires PositivePrices(rows) && n <= |Years(rows)|
  {
    Tabulate(1, n, YearChangeFn(rows))
  }

  /** One change per pair of consecutive years present, from the earlier year's mean to the later's. */
  lemma YearChangesShape(rows: seq<Row>, n: nat)
    requires PositivePrices(rows) && n <= |Years(rows)|
    ensures |YearChanges(rows, n)| == if n == 0 then 0 else n - 1
    ensures AllHaveRows(rows, Years(rows))
    ensures forall i :: 0 <= i < |YearChanges(rows, n)| ==>
      YearChanges(rows, n)[i] == Change(YearMean(rows, Years(rows)[i]), YearMean(rows, Years(rows)[i + 1]))
  {
    YearsHaveRows(rows);
    TabulateAt(1, n, YearChangeFn(rows));
  }

  /** Two of the rows differ in year. */
  predicate SpansTwoYears(rows: seq<Row>) {
    exists i, j :: 0 <= i < |rows| && 0 <= j < |rows| && rows[i].date.year != rows[j].date.year
  }

  /** At least two distinct years are present exactly when two of the rows differ in year. */
  lemma YearsAtLeastTwo(rows: seq<Row>)
    ensures |Years(rows)| >= 2 <==> SpansTwoYears(rows)
  {
    var ys := Years(rows);
    YearsSorted(rows);
    if |ys| >= 2 {
      assert ys[0] in ys && ys[1] in ys;
    }
    if SpansTwoYears(rows) {
      var i, j :| 0 <= i < |rows| && 0 <= j < |rows| && rows[i].date.year != rows[j].date.year;
      AtLeastTwo(ys, rows[i].date.year, rows[j].date.year);
    }
  }

  /** The `sortedYears.forEach` loop of lines 90-100, carrying the previous year's mean. */
  method YearlyChanges(windowData: seq<Row>) returns (yearlyChanges: seq<real>)
    requires PositivePrices(windowData)
    ensures yearlyChanges == YearChanges(windowData, |Years(windowData)|)
  {
    var sortedYears := Years(windowData);
    YearsHaveRows(windowData);
    yearlyChanges := [];
    var previousYearAvg: Option<real> := None;
    for k := 0 to |sortedYears|
      invariant previousYearAvg == if k == 0 then None else Some(YearMean(windowData, sortedYears[k - 1]))
      invariant yearlyChanges == YearChanges(windowData, k)
    {
      var yearData := YearRows(windowData, sortedYears[k]);
      YearRowsMembers(windowData, sortedYears[k]);
      var currentAvg := MeanPrice(yearData);
      if previousYearAvg.Some? {
        yearlyChanges := yearlyChanges + [Change(previousYearAvg.value, currentAvg)];
      }
      previousYearAvg := Some(currentAvg);
    }
  }

  // ---------------------------------------------------------------------------------------
  // Year-over-year mode ('1-year')

  /** The record for the i-th of the years `ys`, compared with the (i-1)-th. */
  function OneYearRecord(t: string, rows: seq<Row>, ys: seq<int>, i: nat): LineRecord
    requires PositivePrices(rows) && AllHaveRows(rows, ys) && 1 <= i < |ys|
  {
    LineRecord(t, JanFirst(ys[i]), YearMean(rows, ys[i]), Change(YearMean(rows, ys[i - 1]), YearMean(rows, ys[i])),
      IntToString(ys[i]), Some("vs " + IntToString(ys[i - 1])), |YearRows(rows, ys[i])|, None)
  }

  /** The record of the k-th of the years `ys`, as a function of k. */
  function OneYearFn(t: string, rows: seq<Row>, ys: seq<int>): int --> LineRecord {
    k requires PositivePrices(rows) && AllHaveRows(rows, ys) && 1 <= k < |ys| => OneYearRecord(t, rows, ys, k)
  }

  /** One record per year of `ys` after the first. */
  function OneYearTable(t: string, rows: seq<Row>, ys: seq<int>): seq<LineRecord>
    requires PositivePrices(rows) && AllHaveRows(rows, ys)
  {
    Tabulate(1, |ys|, OneYearFn(t, rows, ys))
  }

  /** One record per year present after the first. */
  function OneYearRecords(t: string, rows: seq<Row>): seq<LineRecord>
    requires PositivePrices(rows)
  {
    YearsHaveRows(rows);
    OneYearTable(t, rows, Years(rows))
  }

  /** The loop of lines 40-62 for one grocery type. */
  method YearOverYear(groceryType: string, typeData: seq<Row>) returns (recs: seq<LineRecord>)
    requires PositivePrices(typeData)
    ensures recs == OneYearRecords(groceryType, typeData)
  {
    var years := Years(typeData);
    YearsHaveRows(typeData);
    recs := [];
    var i := 1;
    while i < |years|
      invariant 1 <= i <= if |years| == 0 then 1 else |years|
      invariant recs == Tabulate(1, i, OneYearFn(groceryType, typeData, years))
    {
      var record := CompareYear(groceryType, typeData, years, i);
      recs := recs + [record];
      i := i + 1;
    }
  }

  /** One iteration of the loop of lines 40-62: year i of `years` against year i - 1. */
  method CompareYear(groceryType: string, typeData: seq<Row>, years: seq<int>, i: nat) returns (record: LineRecord)
    requires PositivePrices(typeData) && AllHaveRows(typeData, years) && 1 <= i < |years|
    ensures record == OneYearRecord(groceryType, typeData, years, i)
  {
    var year := years[i];
    var prevYear := years[i - 1];
    var currentData := YearRows(typeData, year);
    var prevData := YearRows(typeData, prevYear);
    // Both lookups always find a group: the years are the group keys.
    YearRowsMembers(typeData, prevYear);
    MeanPricePositive(prevData);
    var currentAvg := MeanPrice(currentData);
    var prevAvg := MeanPrice(prevData);
    var change := Change(prevAvg, currentAvg);
    record := LineRecord(groceryType, JanFirst(year), currentAvg, change, IntToString(year),
      Some("vs " + IntToString(prevYear)), |currentData|, None);
  }

  /**
   * `rec` compares year `year` of `rows` with year `prevYear`: both years are present, and the
   * record carries the later year's date, mean, relative change and row count, and both labels.
   */
  predicate ComparesYears(rec: LineRecord, t: string, rows: seq<Row>, prevYear: int, year: int)
    requires PositivePrices(rows)
  {
    && year in Years(rows) && prevYear in Years(rows)
    && YearRows(rows, year) != [] && YearRows(rows, prevYear) != []
    && rec.groceryType == t
    && rec.date == JanFirst(year)
    && rec.avgPrice == YearMean(rows, year)
    && rec.priceIncrease == Change(YearMean(rows, prevYear), YearMean(rows, year))
    && rec.dataPoints == |YearRows(rows, year)|
    && rec.period == IntToString(year)
    && rec.comparison == Some("vs " + IntToString(prevYear))
    && rec.numComparisons == None
  }

  /** No row falls in a year strictly between two consecutive years present. */
  lemma NoYearBetween(rows: seq<Row>, i: nat)
    requires i + 1 < |Years(rows)|
    ensures forall r :: r in rows ==> !(Years(rows)[i] < r.date.year < Years(rows)[i + 1])
  {
    var ys := Years(rows);
    YearsSorted(rows);
    forall r | r in rows
      ensures !(ys[i] < r.date.year < ys[i + 1])
    {
      var k :| 0 <= k < |rows| && rows[k] == r;
      assert r.date.year in ys;
      var j :| 0 <= j < |ys| && ys[j] == r.date.year;
    }
  }

  /** Record i of the table is the record of year i + 1. */
  lemma OneYearTableAt(t: string, rows: seq<Row>, ys: seq<int>, i: nat)
    requires PositivePrices(rows) && AllHaveRows(rows, ys) && i + 1 < |ys|
    ensures |OneYearTable(t, rows, ys)| == |ys| - 1
    ensures OneYearTable(t, rows, ys)[i] == OneYearRecord(t, rows, ys, i + 1)
  {
    var f := OneYearFn(t, rows, ys);
    assert OneYearTable(t, rows, ys) == Tabulate(1, |ys|, f);
    TabulateIndex(1, |ys|, f, i);
    OneYearFnAt(t, rows, ys, 1 + i);
  }

  /** Applying the record function of `ys` to k gives the record of year k. */
  lemma OneYearFnAt(t: string, rows: seq<Row>, ys: seq<int>, k: int)
    requires PositivePrices(rows) && AllHaveRows(rows, ys) && 1 <= k < |ys|
    ensures OneYearFn(t, rows, ys)(k) == OneYearRecord(t, rows, ys, k)
  {
  }

  /**
   * The whole year-over-year series: |years| - 1 records (none for a single year), each
   * comparing a year present with the year present before it.
   */
  lemma OneYearRecordsShape(t: string, rows: seq<Row>)
    requires PositivePrices(rows)
    ensures |OneYearRecords(t, rows)| == if |Years(rows)| == 0 then 0 else |Years(rows)| - 1
    ensures forall i :: 0 <= i < |OneYearRecords(t, rows)| ==>
      ComparesYears(OneYearRecords(t, rows)[i], t, rows, Years(rows)[i], Years(rows)[i + 1])
  {
    var recs := OneYearRecords(t, rows);
    var ys := Years(rows);
    YearsHaveRows(rows);
    forall i | 0 <= i < |recs|
      ensures ComparesYears(recs[i], t, rows, ys[i], ys[i + 1])
    {
      OneYearTableAt(t, rows, ys, i);
    }
  }

  /** The year-over-year records are in strictly ascending date order. */
  lemma OneYearRecordsAscending(t: string, rows: seq<Row>)
    requires PositivePrices(rows)
    ensures forall i, j :: 0 <= i < j < |OneYearRecords(t, rows)| ==>
      Before(OneYearRecords(t, rows)[i].date, OneYearRecords(t, rows)[j].date)
  {
    var recs := OneYearRecords(t, rows);
    var ys := Years(rows);
    YearsHaveRows(rows);
    YearsSorted(rows);
    forall i, j | 0 <= i < j < |recs|
      ensures Before(recs[i].date, recs[j].date)
    {
      OneYearTableAt(t, rows, ys, i);
      OneYearTableAt(t, rows, ys, j);
      assert ys[i + 1] < ys[j + 1];
    }
  }

  /** Every year-over-year record carries its type. */
  lemma OneYearRecordsType(t: string, rows: seq<Row>)
    requires PositivePrices(rows)
    ensures forall r :: r in OneYearRecords(t, rows) ==> r.groceryType == t
  {
    var recs := OneYearRecords(t, rows);
    var ys := Years(rows);
    YearsHaveRows(rows);
    forall r | r in recs
      ensures r.groceryType == t
    {
      var i :| 0 <= i < |recs| && recs[i] == r;
      OneYearTableAt(t, rows, ys, i);
    }
  }

  // ---------------------------------------------------------------------------------------
  // Rolling-window mode ('2-year', '4-year', '8-year' and any unknown selector)

  /** Jan 1 of year - floor(w/2). */
  function WindowStart(year: int, w: nat): Date {
    JanFirst(year - w / 2)
  }

  /** Jan 1 of year + ceil(w/2) - 1. */
  function WindowEnd(year: int, w: nat): Date {
    JanFirst(year + (w + 1) / 2 - 1)
  }

  /** The filter of lines 77-80: the window, clipped to the global date range, inclusive. */
  predicate InWindow(d: Date, year: int, w: nat, minDate: Date, maxDate: Date) {
    var ws := WindowStart(year, w);
    var we := WindowEnd(year, w);
    NotAfter(if Before(ws, minDate) then minDate else ws, d) &&
    NotAfter(d, if Before(maxDate, we) then maxDate else we)
  }

  function WindowRows(rows: seq<Row>, year: int, w: nat, minDate: Date, maxDate: Date): (wd: seq<Row>)
    ensures |wd| <= |rows|
  {
    Filter(rows, (r: Row) => InWindow(r.date, year, w, minDate, maxDate))
  }

  /** The window's rows are exactly the rows whose date lies in the clipped window. */
  lemma WindowRowsMembers(rows: seq<Row>, year: int, w: nat, minDate: Date, maxDate: Date)
    ensures forall r :: r in WindowRows(rows, year, w, minDate, maxDate) <==>
      r in rows && InWindow(r.date, year, w, minDate, maxDate)
  {
    FilterMembers(rows, (r: Row) => InWindow(r.date, year, w, minDate, maxDate));
  }

  /** The record for evaluation year `year`, if the window holds at least one year-to-year comparison. */
  function RollingRecordAt(t: string, rows: seq<Row>, year: int, w: nat, minDate: Date, maxDate: Date): Option<LineRecord>
    requires PositivePrices(rows)
  {
    var wd := WindowRows(rows, year, w, minDate, maxDate);
    WindowRowsMembers(rows, year, w, minDate, maxDate);
    if wd == [] then None
    else
      var changes := YearChanges(wd, |Years(wd)|);
      if |changes| > 0 then
        Some(LineRecord(t, JanFirst(year), MeanPrice(wd), Mean(changes).value,
          IntToString(WindowStart(year, w).year) + "-" + IntToString(WindowEnd(year, w).year),
          None, |wd|, Some(|changes|)))
      else None
  }

  /** A window date lies in the window's years, and in its last year only on January 1. */
  lemma WindowYears(d: Date, year: int, w: nat, minDate: Date, maxDate: Date)
    requires InWindow(d, year, w, minDate, maxDate)
    ensures year - w / 2 <= d.year <= year + (w + 1) / 2 - 1
    ensures d.year == year + (w + 1) / 2 - 1 ==> d.month == 0
  {
    assert NotAfter(WindowStart(year, w), d) && NotAfter(d, WindowEnd(year, w));
  }

  /** For a date inside the data range, clipping the window to that range changes nothing. */
  lemma ClippingInert(d: Date, year: int, w: nat, minDate: Date, maxDate: Date)
    requires NotAfter(minDate, d) && NotAfter(d, maxDate)
    ensures InWindow(d, year, w, minDate, maxDate) <==>
      NotAfter(WindowStart(year, w), d) && NotAfter(d, WindowEnd(year, w))
  {
  }

  /**
   * A rolling record exists exactly when the window (whose rows are exactly those of `rows` in the
   * clipped window) holds rows of two different years.
   */
  lemma RollingRecordExists(t: string, rows: seq<Row>, year: int, w: nat, minDate: Date, maxDate: Date)
    requires PositivePrices(rows)
    ensures RollingRecordAt(t, rows, year, w, minDate, maxDate).Some? <==>
      SpansTwoYears(WindowRows(rows, year, w, minDate, maxDate))
  {
    var wd := WindowRows(rows, year, w, minDate, maxDate);
    WindowRowsMembers(rows, year, w, minDate, maxDate);
    YearsAtLeastTwo(wd);
    if wd != [] {
      YearChangesShape(wd, |Years(wd)|);
    } else {
      assert !SpansTwoYears(wd);
    }
  }

  /**
   * A rolling record is dated January 1 of the evaluation year, averages the window's prices and
   * the year-to-year changes in it, counts the window's rows and makes one comparison per pair
   * of consecutive years present.
   */
  lemma RollingRecordFields(t: string, rows: seq<Row>, year: int, w: nat, minDate: Date, maxDate: Date)
    requires PositivePrices(rows)
    ensures var r := RollingRecordAt(t, rows, year, w, minDate, maxDate);
      var wd := WindowRows(rows, year, w, minDate, maxDate);
      r.Some? ==>
        && wd != []
        && r.value.groceryType == t
        && r.value.date == JanFirst(year)
        && Mean(Prices(wd)) == Some(r.value.avgPrice)
        && PositivePrices(wd)
        && Mean(YearChanges(wd, |Years(wd)|)) == Some(r.value.priceIncrease)
        && r.value.dataPoints == |wd|
        && r.value.numComparisons == Some(|Years(wd)| - 1)
  {
    var wd := WindowRows(rows, year, w, minDate, maxDate);
    WindowRowsMembers(rows, year, w, minDate, maxDate);
    if wd != [] {
      YearChangesShape(wd, |Years(wd)|);
    }
  }

  /** A rolling record is labelled with the first and last years of the unclipped window. */
  lemma RollingRecordPeriod(t: string, rows: seq<Row>, year: int, w: nat, minDate: Date, maxDate: Date)
    requires PositivePrices(rows)
    ensures var r := RollingRecordAt(t, rows, year, w, minDate, maxDate);
      r.Some? ==> r.value.period == IntToString(year - w / 2) + "-" + IntToString(year + (w + 1) / 2 - 1)
  {
    var r := RollingRecordAt(t, rows, year, w, minDate, maxDate);
    if r.Some? {
      assert r.value.period == IntToString(WindowStart(year, w).year) + "-" + IntToString(WindowEnd(year, w).year);
    }
  }

  /** The records of the evaluation years from `lo` up to, not including, `hi`. */
  function RollingBetween(t: string, rows: seq<Row>, w: nat, minDate: Date, maxDate: Date, lo: int, hi: int): seq<LineRecord>
    requires PositivePrices(rows)
    decreases hi - lo
  {
    if hi <= lo then []
    else
      RollingBetween(t, rows, w, minDate, maxDate, lo, hi - 1) +
      RollingRecordAt(t, rows, hi - 1, w, minDate, maxDate).ToSeq()
  }

  /** Evaluating one more year appends that year's record, if any. */
  lemma RollingBetweenSnoc(t: string, rows: seq<Row>, w: nat, minDate: Date, maxDate: Date, lo: int, hi: int)
    requires PositivePrices(rows) && lo <= hi
    ensures RollingBetween(t, rows, w, minDate, maxDate, lo, hi + 1) ==
      RollingBetween(t, rows, w, minDate, maxDate, lo, hi) + RollingRecordAt(t, rows, hi, w, minDate, maxDate).ToSeq()
  {
  }

  /** The records between `lo` and `hi` are exactly the records of those evaluation years. */
  lemma {:induction false} RollingBetweenMembers(t: string, rows: seq<Row>, w: nat, minDate: Date, maxDate: Date, lo: int, hi: int)
    requires PositivePrices(rows)
    ensures forall r :: r in RollingBetween(t, rows, w, minDate, maxDate, lo, hi) <==>
      exists y :: lo <= y < hi && RollingRecordAt(t, rows, y, w, minDate, maxDate) == Some(r)
    decreases hi - lo
  {
    if lo < hi {
      var front := RollingBetween(t, rows, w, minDate, maxDate, lo, hi - 1);
      var last := RollingRecordAt(t, rows, hi - 1, w, minDate, maxDate);
      RollingBetweenMembers(t, rows, w, minDate, maxDate, lo, hi - 1);
      assert RollingBetween(t, rows, w, minDate, maxDate, lo, hi) == front + last.ToSeq();
      forall r
        ensures r in RollingBetween(t, rows, w, minDate, maxDate, lo, hi) <==>
          exists y :: lo <= y < hi && RollingRecordAt(t, rows, y, w, minDate, maxDate) == Some(r)
      {
        if r in RollingBetween(t, rows, w, minDate, maxDate, lo, hi) && r !in front {
          assert last == Some(r);
        }
        if y :| lo <= y < hi && RollingRecordAt(t, rows, y, w, minDate, maxDate) == Some(r) {
          if y == hi - 1 {
            assert r in last.ToSeq();
          } else {
            assert r in front;
          }
        }
      }
    }
  }

  /** The records between `lo` and `hi` are dated in those years, one per year at most, ascending. */
  lemma {:induction false} RollingBetweenYears(t: string, rows: seq<Row>, w: nat, minDate: Date, maxDate: Date, lo: int, hi: int)
    requires PositivePrices(rows)
    ensures forall r :: r in RollingBetween(t, rows, w, minDate, maxDate, lo, hi) ==> lo <= r.date.year < hi
    ensures forall i, j :: 0 <= i < j < |RollingBetween(t, rows, w, minDate, maxDate, lo, hi)| ==>
      RollingBetween(t, rows, w, minDate, maxDate, lo, hi)[i].date.year < RollingBetween(t, rows, w, minDate, maxDate, lo, hi)[j].date.year
    decreases hi - lo
  {
    if lo < hi {
      var front := RollingBetween(t, rows, w, minDate, maxDate, lo, hi - 1);
      var rs := RollingBetween(t, rows, w, minDate, maxDate, lo, hi);
      RollingBetweenYears(t, rows, w, minDate, maxDate, lo, hi - 1);
      RollingRecordFields(t, rows, hi - 1, w, minDate, maxDate);
      assert rs == front + RollingRecordAt(t, rows, hi - 1, w, minDate, maxDate).ToSeq();
      forall i, j | 0 <= i < j < |rs|
        ensures rs[i].date.year < rs[j].date.year
      {
        assert rs[i] == front[i] && rs[i] in front;
        if j < |front| {
          assert rs[j] == front[j];
        }
      }
    }
  }

  /** Every rolling record carries its type. */
  lemma {:induction false} RollingBetweenType(t: string, rows: seq<Row>, w: nat, minDate: Date, maxDate: Date, lo: int, hi: int)
    requires PositivePrices(rows)
    ensures forall r :: r in RollingBetween(t, rows, w, minDate, maxDate, lo, hi) ==> r.groceryType == t
    decreases hi - lo
  {
    if lo < hi {
      RollingBetweenType(t, rows, w, minDate, maxDate, lo, hi - 1);
    }
  }

  /** One evaluation per calendar year from the global minimum year to the global maximum year. */
  function RollingRecords(t: string, rows: seq<Row>, w: nat, minDate: Date, maxDate: Date): seq<LineRecord>
    requires PositivePrices(rows)
  {
    RollingBetween(t, rows, w, minDate, maxDate, minDate.year, maxDate.year + 1)
  }

  /**
   * The rolling series of a type holds exactly the records of the calendar years from the
   * earliest to the latest year of the data, at most one per year, in ascending date order.
   */
  lemma RollingRecordsYears(t: string, rows: seq<Row>, w: nat, minDate: Date, maxDate: Date)
    requires PositivePrices(rows)
    ensures forall r :: r in RollingRecords(t, rows, w, minDate, maxDate) <==>
      exists y :: minDate.year <= y <= maxDate.year && RollingRecordAt(t, rows, y, w, minDate, maxDate) == Some(r)
    ensures forall i, j :: 0 <= i < j < |RollingRecords(t, rows, w, minDate, maxDate)| ==>
      RollingRecords(t, rows, w, minDate, maxDate)[i].date.year < RollingRecords(t, rows, w, minDate, maxDate)[j].date.year
    ensures forall i, j :: 0 <= i < j < |RollingRecords(t, rows, w, minDate, maxDate)| ==>
      Before(RollingRecords(t, rows, w, minDate, maxDate)[i].date, RollingRecords(t, rows, w, minDate, maxDate)[j].date)
  {
    var rs := RollingRecords(t, rows, w, minDate, maxDate);
    RollingBetweenMembers(t, rows, w, minDate, maxDate, minDate.year, maxDate.year + 1);
    RollingBetweenYears(t, rows, w, minDate, maxDate, minDate.year, maxDate.year + 1);
    forall i, j | 0 <= i < j < |rs|
      ensures Before(rs[i].date, rs[j].date)
    {
      OrdinalOrder(rs[i].date, rs[j].date);
    }
  }

  /** The body of the per-year loop: the record for one evaluation year, if any. */
  method EvaluateYear(groceryType: string, typeData: seq<Row>, year: int, windowSize: nat, minDate: Date, maxDate: Date)
    returns (rec: seq<LineRecord>)
    requires PositivePrices(typeData)
    ensures rec == RollingRecordAt(groceryType, typeData, year, windowSize, minDate, maxDate).ToSeq()
  {
    var currentDate := JanFirst(year);
    var windowStart := JanFirst(currentDate.year - windowSize / 2);
    var windowEnd := JanFirst(currentDate.year + (windowSize + 1) / 2 - 1);
    var windowData := WindowRows(typeData, year, windowSize, minDate, maxDate);
    if windowData == [] {
      return [];
    }
    WindowRowsMembers(typeData, year, windowSize, minDate, maxDate);
    var yearlyChanges := YearlyChanges(windowData);
    if |yearlyChanges| > 0 {
      assert windowStart == WindowStart(year, windowSize) && windowEnd == WindowEnd(year, windowSize);
      rec := [LineRecord(groceryType, currentDate, MeanPrice(windowData), Mean(yearlyChanges).value,
        IntToString(windowStart.year) + "-" + IntToString(windowEnd.year), None, |windowData|, Some(|yearlyChanges|))];
    } else {
      rec := [];
    }
  }

  /** The loop of lines 68-113 for one grocery type. */
  method RollingWindows(groceryType: string, typeData: seq<Row>, windowSize: nat, minDate: Date, maxDate: Date)
    returns (recs: seq<LineRecord>)
    requires PositivePrices(typeData) && NotAfter(minDate, maxDate)
    ensures recs == RollingRecords(groceryType, typeData, windowSize, minDate, maxDate)
  {
    recs := [];
    var startYear := minDate.year;
    var endYear := maxDate.year;
    for year := startYear to endYear + 1
      invariant recs == RollingBetween(groceryType, typeData, windowSize, minDate, maxDate, startYear, year)
    {
      var rec := EvaluateYear(groceryType, typeData, year, windowSize, minDate, maxDate);
      RollingBetweenSnoc(groceryType, typeData, windowSize, minDate, maxDate, startYear, year);
      recs := recs + rec;
    }
  }

  // ---------------------------------------------------------------------------------------
  // The whole aggregation

  /** The records of one type's rows in the mode the interval selects, windows clipped to [minDate, maxDate]. */
  function Series(t: string, rows: seq<Row>, interval: string, minDate: Date, maxDate: Date): seq<LineRecord>
    requires PositivePrices(rows)
  {
    if interval == "1-year" then OneYearRecords(t, rows)
    else RollingRecords(t, rows, WindowSize(interval), minDate, maxDate)
  }

  /** The records of type t, from its rows and the range of the whole data. */
  function TypeRecords(data: seq<Row>, interval: string, t: string): seq<LineRecord>
    requires PositivePrices(data) && data != []
  {
    SelectMembers(data, TypeOf, t);
    Series(t, Select(data, TypeOf, t), interval, MinDate(data).value, MaxDate(data).value)
  }

  /** Every record of type t's series carries t. */
  lemma TypeRecordsType(data: seq<Row>, interval: string, t: string)
    requires PositivePrices(data) && data != []
    ensures forall r :: r in TypeRecords(data, interval, t) ==> r.groceryType == t
  {
    var rows := Select(data, TypeOf, t);
    SelectMembers(data, TypeOf, t);
    if interval == "1-year" {
      OneYearRecordsType(t, rows);
    } else {
      RollingBetweenType(t, rows, WindowSize(interval), MinDate(data).value, MaxDate(data).value,
        MinDate(data).value.year, MaxDate(data).value.year + 1);
    }
  }

  /** The series of each type, or nothing when there is no data. */
  function RecordsOf(data: seq<Row>, interval: string): string -> seq<LineRecord> {
    u => if PositivePrices(data) && data != [] then TypeRecords(data, interval, u) else []
  }

  /** The result of `processData(data, interval)`. */
  function LineRecords(data: seq<Row>, interval: string): seq<LineRecord>
    requires PositivePrices(data)
  {
    var types := FirstSeen(data, TypeOf);
    Concat(types, |types|, RecordsOf(data, interval))
  }

  // ---------------------------------------------------------------------------------------
  // One type's line

  function RecordType(r: LineRecord): string { r.groceryType }

  /**
   * The line of a grocery type is that type's own series, computed from its rows and the global
   * date range alone: the other types never change it, and a type with no rows has no line.
   */
  lemma LineRecordsOfType(data: seq<Row>, interval: string, t: string)
    requires PositivePrices(data)
    ensures Select(LineRecords(data, interval), RecordType, t) ==
      if exists r :: r in data && r.groceryType == t then TypeRecords(data, interval, t) else []
  {
    var f := RecordsOf(data, interval);
    forall u, r | r in f(u)
      ensures RecordType(r) == u
    {
      TypeRecordsType(data, interval, u);
    }
    GroupedSelect(data, TypeOf, f, RecordType, t);
    if data == [] {
      assert !exists r :: r in data && r.groceryType == t;
    }
  }

  /** The body of the `groupedByType.forEach` callback (lines 30-114) for one grocery type. */
  method ProcessType(groceryType: string, typeData: seq<Row>, interval: string, windowSize: nat, minDate: Date, maxDate: Date)
    returns (recs: seq<LineRecord>)
    requires PositivePrices(typeData) && windowSize == WindowSize(interval) && NotAfter(minDate, maxDate)
    ensures recs == Series(groceryType, typeData, interval, minDate, maxDate)
  {
    if interval == "1-year" {
      recs := YearOverYear(groceryType, typeData);
    } else {
      recs := RollingWindows(groceryType, typeData, windowSize, minDate, maxDate);
    }
  }

  /** One iteration of the type loop: the group of `groceryType` is selected and processed. */
  method ProcessGroup(data: seq<Row>, interval: string, windowSize: nat, minDate: Date, maxDate: Date, groceryType: string)
    returns (recs: seq<LineRecord>)
    requires PositivePrices(data) && data != [] && windowSize == WindowSize(interval)
    requires MinDate(data) == Some(minDate) && MaxDate(data) == Some(maxDate)
    ensures recs == TypeRecords(data, interval, groceryType)
  {
    var typeData := Select(data, TypeOf, groceryType);
    SelectMembers(data, TypeOf, groceryType);
    MinNotAfterMax(data);
    recs := ProcessType(groceryType, typeData, interval, windowSize, minDate, maxDate);
  }

  /** `processData` (lines 20-118): the loop over the grocery types in first-seen order. */
  method ProcessData(data: seq<Row>, interval: string) returns (processedData: seq<LineRecord>)
    requires PositivePrices(data)
    ensures processedData == LineRecords(data, interval)
    ensures data == [] ==> processedData == []
  {
    var windowSize := WindowSize(interval);
    processedData := [];
    var minDate := MinDate(data);
    var maxDate := MaxDate(data);
    var groupedByType := FirstSeen(data, TypeOf);
    for i := 0 to |groupedByType|
      invariant processedData == Concat(groupedByType, i, RecordsOf(data, interval))
    {
      var groceryType := groupedByType[i];
      var recs := ProcessGroup(data, interval, windowSize, minDate.value, maxDate.value, groceryType);
      processedData := processedData + recs;
    }
  }
}
