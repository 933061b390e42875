/**
 * The processed price row that every chart consumes (the objects built by `loadData`), and
 * the calendar arithmetic on its `date`, a month parsed from "%Y-%m" (so always the 1st).
 */
module Observations {
  import opened Options
  import opened Stats
  import opened Grouping

  /** A JavaScript month index, 0 for January to 11 for December. */
  type Month = m: int | 0 <= m < 12

  datatype Date = Date(year: int, month: Month)

  /** Months since January of year 0: JavaScript's Date comparison on first-of-month dates. */
  function Ordinal(d: Date): int {
    d.year * 12 + d.month
  }

  function FromOrdinal(o: int): (d: Date)
    ensures Ordinal(d) == o
  {
    Date(o / 12, o % 12)
  }

  /** Comparing ordinals is comparing (year, month) lexicographically, so equal ordinals are equal dates. */
  lemma OrdinalOrder(a: Date, b: Date)
    ensures Ordinal(a) < Ordinal(b) <==> a.year < b.year || (a.year == b.year && a.month < b.month)
    ensures Ordinal(a) == Ordinal(b) <==> a == b
  {
  }

  predicate Before(a: Date, b: Date) {
    Ordinal(a) < Ordinal(b)
  }

  predicate NotAfter(a: Date, b: Date) {
    Ordinal(a) <= Ordinal(b)
  }

  /** `new Date(year, 0, 1)`. */
  function JanFirst(year: int): Date {
    Date(year, 0)
  }

  datatype Row = Row(
    date: Date,
    product: string,
    groceryType: string,
    ratioTo100Gram: real,
    unit: string,
    price: real,
    region: string)

  function TypeOf(r: Row): string { r.groceryType }
  function RegionOf(r: Row): string { r.region }
  function ProductOf(r: Row): string { r.product }
  function YearOf(r: Row): int { r.date.year }

  function Prices(rows: seq<Row>): (ps: seq<real>)
    ensures |ps| == |rows| && forall i :: 0 <= i < |rows| ==> ps[i] == rows[i].price
  {
    seq(|rows|, i requires 0 <= i < |rows| => rows[i].price)
  }

  predicate PositivePrices(rows: seq<Row>) {
    forall r :: r in rows ==> r.price > 0.0
  }

  /** d3.mean(rows, d => d.price) for a non-empty group. */
  function MeanPrice(rows: seq<Row>): (m: real)
    requires rows != []
    ensures Mean(Prices(rows)) == Some(m)
  {
    Mean(Prices(rows)).value
  }

  /** The mean price of positive prices is positive. */
  lemma MeanPricePositive(rows: seq<Row>)
    requires rows != [] && PositivePrices(rows)
    ensures MeanPrice(rows) > 0.0
  {
    MeanPositive(Prices(rows));
  }

  /** d3.mean of the prices of the k-th of the groups `gs`. */
  function GroupMean<K>(gs: seq<(K, seq<Row>)>, k: nat): real
    requires NonEmptyGroups(gs) && k < |gs|
  {
    MeanPrice(gs[k].1)
  }

  /** d3.min(data, d => d.date): the earliest date, undefined for no rows. */
  function MinDate(rows: seq<Row>): (m: Option<Date>)
    ensures m.None? <==> rows == []
    ensures m.Some? ==> (exists i :: 0 <= i < |rows| && rows[i].date == m.value)
    ensures m.Some? ==> forall i :: 0 <= i < |rows| ==> NotAfter(m.value, rows[i].date)
  {
    if rows == [] then None
    else
      var front := rows[..|rows| - 1];
      var last := rows[|rows| - 1].date;
      var m := MinDate(front);
      assert forall i :: 0 <= i < |front| ==> front[i] == rows[i];
      if m.None? || Before(last, m.value) then Some(last) else m
  }

  /** d3.max(data, d => d.date): the latest date, undefined for no rows. */
  function MaxDate(rows: seq<Row>): (m: Option<Date>)
    ensures m.None? <==> rows == []
    ensures m.Some? ==> (exists i :: 0 <= i < |rows| && rows[i].date == m.value)
    ensures m.Some? ==> forall i :: 0 <= i < |rows| ==> NotAfter(rows[i].date, m.value)
  {
    if rows == [] then None
    else
      var front := rows[..|rows| - 1];
      var last := rows[|rows| - 1].date;
      var m := MaxDate(front);
      assert forall i :: 0 <= i < |front| ==> front[i] == rows[i];
      if m.None? || Before(m.value, last) then Some(last) else m
  }

  /** The earliest date is not after the latest. */
  lemma MinNotAfterMax(rows: seq<Row>)
    requires rows != []
    ensures NotAfter(MinDate(rows).value, MaxDate(rows).value)
  {
    var i :| 0 <= i < |rows| && rows[i].date == MaxDate(rows).value;
  }
}
