/**
 * The data side of the circle chart (`CircleChart.wrangleData` and the split at the top of
 * `updateVis`): the rows are filtered by the selected categories and the selected year range,
 * then every grocery type left gets one slice whose value is either the mean of its yearly
 * percentage changes or its mean price per 100 g over rows sold by the piece.
 */
module CircleChart {
  import opened Options
  import opened Grouping
  import opened Stats
  import opened Observations
  import opened Yearly

  /** One entry of `vis.chartData` (its `label` is `name` here, `label` being a Dafny keyword); the value is undefined (None) when d3.mean had nothing to average. */
  datatype Slice = Slice(name: string, value: Option<real>)

  // ---------------------------------------------------------------------------------------
  // Filters (lines 84-108)

  /** Whether a row's type is among the selected. */
  function IsSelected(selected: seq<string>): Row -> bool {
    (r: Row) => r.groceryType in selected
  }

  /** Step 2: every row when "All" is selected, otherwise the rows of a selected type. */
  function CategoryFilter(data: seq<Row>, selected: seq<string>): seq<Row> {
    if "All" in selected then data else Filter(data, IsSelected(selected))
  }

  /** A row survives the category filter exactly when "All" or its own type is selected. */
  lemma CategoryFilterMembers(data: seq<Row>, selected: seq<string>)
    ensures "All" in selected ==> CategoryFilter(data, selected) == data
    ensures forall r :: r in CategoryFilter(data, selected) <==>
      r in data && ("All" in selected || r.groceryType in selected)
  {
    FilterMembers(data, IsSelected(selected));
  }

  /** JavaScript truthiness of a slider bound: set, and not zero. */
  predicate Truthy(bound: Option<real>) {
    bound.Some? && bound.value != 0.0
  }

  /** Whether a row's year lies between the bounds, inclusive. */
  function InYearRange(minYear: real, maxYear: real): Row -> bool {
    (r: Row) => minYear <= r.date.year as real <= maxYear
  }

  /** Step 3: when both bounds are set, the rows whose year lies between them, inclusive; otherwise every row. */
  function YearFilter(rows: seq<Row>, minYear: Option<real>, maxYear: Option<real>): seq<Row> {
    if Truthy(minYear) && Truthy(maxYear) then Filter(rows, InYearRange(minYear.value, maxYear.value))
    else rows
  }

  /** The year filter keeps every row unless both bounds are set, and then exactly the rows within them. */
  lemma YearFilterMembers(rows: seq<Row>, minYear: Option<real>, maxYear: Option<real>)
    ensures !(Truthy(minYear) && Truthy(maxYear)) ==> YearFilter(rows, minYear, maxYear) == rows
    ensures Truthy(minYear) && Truthy(maxYear) ==> forall r :: r in YearFilter(rows, minYear, maxYear) <==>
      r in rows && minYear.value <= r.date.year as real <= maxYear.value
  {
    if Truthy(minYear) && Truthy(maxYear) {
      FilterMembers(rows, InYearRange(minYear.value, maxYear.value));
    }
  }

  /** The rows the chart aggregates. */
  function Filtered(data: seq<Row>, selected: seq<string>, minYear: Option<real>, maxYear: Option<real>): seq<Row> {
    YearFilter(CategoryFilter(data, selected), minYear, maxYear)
  }

  // ---------------------------------------------------------------------------------------
  // Percent mode (lines 111-143)

  /**
   * `yearlyData`: d3.groups of one type's rows by year, sorted by year, each year paired with
   * its rows in input order.
   */
  function YearlyData(values: seq<Row>): (gs: seq<(int, seq<Row>)>)
    ensures NonEmptyGroups(gs)
  {
    var ys := Years(values);
    YearsHaveRows(values);
    seq(|ys|, i requires 0 <= i < |ys| => (ys[i], YearRows(values, ys[i])))
  }

  /**
   * The years come in strictly ascending order, each with exactly the rows of that year and at
   * least one, and every row's year is among them.
   */
  lemma YearlyDataGroups(values: seq<Row>)
    ensures forall i, j :: 0 <= i < j < |YearlyData(values)| ==> YearlyData(values)[i].0 < YearlyData(values)[j].0
    ensures forall i, r :: 0 <= i < |YearlyData(values)| ==>
      (r in YearlyData(values)[i].1 <==> r in values && r.date.year == YearlyData(values)[i].0)
    ensures forall r :: r in values ==>
      exists i :: 0 <= i < |YearlyData(values)| && YearlyData(values)[i].0 == r.date.year
  {
    var ys := Years(values);
    var gs := YearlyData(values);
    YearsSorted(values);
    YearsHaveRows(values);
    forall i | 0 <= i < |gs|
      ensures gs[i].1 != []
      ensures forall r :: r in gs[i].1 <==> r in values && r.date.year == gs[i].0
    {
      YearRowsMembers(values, ys[i]);
    }
    forall r | r in values
      ensures exists i :: 0 <= i < |gs| && gs[i].0 == r.date.year
    {
      var n :| 0 <= n < |values| && values[n] == r;
      assert r.date.year in ys;
      var i :| 0 <= i < |ys| && ys[i] == r.date.year;
      assert gs[i].0 == r.date.year;
    }
  }

  /** The mean price of each year group, in the order of the groups. */
  function YearMeans(gs: seq<(int, seq<Row>)>): (means: seq<real>)
    requires NonEmptyGroups(gs)
    ensures |means| == |gs|
  {
    seq(|gs|, k requires 0 <= k < |gs| => GroupMean(gs, k))
  }

  /**
   * What iteration k of the loop pushes: the percentage change from mean k - 1 to mean k, or
   * nothing for k = 0 and when the earlier mean is exactly zero.
   */
  function PairChangeFn(means: seq<real>): int --> Option<real> {
    k requires 0 <= k < |means| =>
      if k == 0 || means[k - 1] == 0.0 then None
      else Some(Change(means[k - 1], means[k]) * 100.0)
  }

  /** `yearlyPercentageChanges` over the successive means. */
  function PairChanges(means: seq<real>): seq<real> {
    Collect(|means|, PairChangeFn(means))
  }

  /** The value of a type in percent mode: the mean of the changes between its consecutive years present. */
  function PercentValue(values: seq<Row>): Option<real> {
    Mean(PairChanges(YearMeans(YearlyData(values))))
  }

  /** A pair of consecutive means, k - 1 and k, the earlier one not zero, changing by c percent. */
  predicate SurvivingPair(means: seq<real>, k: int, c: real) {
    && 1 <= k < |means|
    && means[k - 1] != 0.0
    && c == Change(means[k - 1], means[k]) * 100.0
  }

  /** Iteration k pushes c exactly when the pair ending at k survives with change c. */
  lemma PushedExactly(means: seq<real>, k: int, c: real)
    requires 0 <= k < |means|
    ensures PairChangeFn(means)(k) == Some(c) <==> SurvivingPair(means, k, c)
  {
  }

  /**
   * The changes are those of the surviving pairs, at most one per pair of consecutive means,
   * and there are none exactly when every earlier mean is zero (as with a single year).
   */
  lemma PairChangesMembers(means: seq<real>)
    ensures forall c :: c in PairChanges(means) <==> exists k :: SurvivingPair(means, k, c)
    ensures |PairChanges(means)| <= if means == [] then 0 else |means| - 1
    ensures PairChanges(means) == [] <==> forall k :: 0 <= k < |means| - 1 ==> means[k] == 0.0
  {
    var f := PairChangeFn(means);
    CollectMembers(|means|, f);
    CollectSkipsFirst(|means|, f);
    forall c
      ensures c in PairChanges(means) <==> exists k :: SurvivingPair(means, k, c)
    {
      if c in PairChanges(means) {
        var k :| 0 <= k < |means| && f(k) == Some(c);
        PushedExactly(means, k, c);
      }
      if exists k :: SurvivingPair(means, k, c) {
        var k :| SurvivingPair(means, k, c);
        PushedExactly(means, k, c);
      }
    }
    if PairChanges(means) != [] {
      var c := PairChanges(means)[0];
      assert c in PairChanges(means);
      var k :| SurvivingPair(means, k, c);
      assert 0 <= k - 1 < |means| - 1 && means[k - 1] != 0.0;
    }
    if exists k :: 0 <= k < |means| - 1 && means[k] != 0.0 {
      var k :| 0 <= k < |means| - 1 && means[k] != 0.0;
      var c := Change(means[k], means[k + 1]) * 100.0;
      assert SurvivingPair(means, k + 1, c);
      assert c in PairChanges(means);
    }
  }

  /** The percent value is undefined exactly when no pair of consecutive years survives. */
  lemma PercentValueUndefined(values: seq<Row>)
    ensures PercentValue(values).None? <==>
      (forall k :: 0 <= k < |YearlyData(values)| - 1 ==> GroupMean(YearlyData(values), k) == 0.0)
  {
    var means := YearMeans(YearlyData(values));
    PairChangesMembers(means);
    assert forall k :: 0 <= k < |means| ==> means[k] == GroupMean(YearlyData(values), k);
  }

  /** The loop of lines 116-137 for one grocery type: group its rows by year, then average the surviving changes. */
  method TypePercent(groceryType: string, values: seq<Row>) returns (avgPercentageChange: Option<real>)
    ensures avgPercentageChange == PercentValue(values)
  {
    var yearlyData := YearlyData(values);
    var yearlyPercentageChanges := PairChangeLoop(yearlyData);
    avgPercentageChange := Mean(yearlyPercentageChanges);
  }

  /** The `for` loop of lines 120-135 over the year groups. */
  method PairChangeLoop(yearlyData: seq<(int, seq<Row>)>) returns (changes: seq<real>)
    requires NonEmptyGroups(yearlyData)
    ensures changes == PairChanges(YearMeans(yearlyData))
  {
    changes := [];
    if yearlyData == [] {
      return;
    }
    ghost var f := PairChangeFn(YearMeans(yearlyData));
    for i := 1 to |yearlyData|
      invariant changes == Collect(i, f)
    {
      var percentageChange := YearChange(yearlyData, i);
      if percentageChange.Some? {
        changes := changes + [percentageChange.value];
      }
    }
  }

  /**
   * The body of the loop for year i: the percentage change from the previous year's mean, or
   * nothing (the iteration is skipped) when that mean is zero.
   */
  method YearChange(yearlyData: seq<(int, seq<Row>)>, i: nat) returns (percentageChange: Option<real>)
    requires NonEmptyGroups(yearlyData) && 1 <= i < |yearlyData|
    ensures percentageChange == PairChangeFn(YearMeans(yearlyData))(i)
  {
    var currentYearAvg := GroupMean(yearlyData, i);
    var previousYearAvg := GroupMean(yearlyData, i - 1);
    if previousYearAvg == 0.0 {
      return None;
    }
    percentageChange := Some(Change(previousYearAvg, currentYearAvg) * 100.0);
  }

  // ---------------------------------------------------------------------------------------
  // Price per 100 g (lines 145-154)

  /** The price scaled to 100 g. */
  function PerGram(r: Row): real {
    r.price * r.ratioTo100Gram
  }

  /** A row sold by the piece. */
  predicate IsPiece(r: Row) {
    r.unit == "No"
  }

  /** The rows sold by the piece, unit "No". */
  function PieceRows(values: seq<Row>): seq<Row> {
    Filter(values, IsPiece)
  }

  /** The value of a type outside percent mode: the mean price per 100 g over its rows sold by the piece. */
  function Per100gValue(values: seq<Row>): Option<real> {
    var pieces := PieceRows(values);
    Mean(seq(|pieces|, i requires 0 <= i < |pieces| => PerGram(pieces[i])))
  }

  /**
   * The value averages exactly the rows with unit "No", and is undefined exactly when the type
   * has none.
   */
  lemma Per100gValueDefined(values: seq<Row>)
    ensures forall r :: r in PieceRows(values) <==> r in values && r.unit == "No"
    ensures Per100gValue(values).None? <==> forall r :: r in values ==> r.unit != "No"
  {
    FilterMembers(values, IsPiece);
    if PieceRows(values) != [] {
      assert PieceRows(values)[0] in PieceRows(values);
    }
  }

  // ---------------------------------------------------------------------------------------
  // Chart data

  /** One slice per grocery type of the rows, in first-seen order, valued from that type's rows. */
  function SlicesBy(rows: seq<Row>, value: seq<Row> -> Option<real>): seq<Slice> {
    var groceryData := GroupBy(rows, TypeOf);
    seq(|groceryData|, i requires 0 <= i < |groceryData| => Slice(groceryData[i].0, value(groceryData[i].1)))
  }

  /** The slices of either mode. */
  function Slices(rows: seq<Row>, percent: bool): seq<Slice> {
    SlicesBy(rows, if percent then PercentValue else Per100gValue)
  }

  /** `vis.chartData` after `wrangleData`. */
  function ChartData(data: seq<Row>, percent: bool, selected: seq<string>, minYear: Option<real>, maxYear: Option<real>): seq<Slice> {
    Slices(Filtered(data, selected, minYear, maxYear), percent)
  }

  /** Each slice is its group's key with the value of the group. */
  lemma SlicesByGroups(rows: seq<Row>, value: seq<Row> -> Option<real>)
    ensures |SlicesBy(rows, value)| == |GroupBy(rows, TypeOf)|
    ensures forall i :: 0 <= i < |SlicesBy(rows, value)| ==>
      SlicesBy(rows, value)[i] == Slice(GroupBy(rows, TypeOf)[i].0, value(GroupBy(rows, TypeOf)[i].1))
  {
  }

  /** No two slices carry the same label. */
  lemma SlicesDistinct(rows: seq<Row>, value: seq<Row> -> Option<real>)
    ensures forall i, j :: 0 <= i < j < |SlicesBy(rows, value)| ==> SlicesBy(rows, value)[i].name != SlicesBy(rows, value)[j].name
  {
    SlicesByGroups(rows, value);
    GroupByDistinct(rows, TypeOf);
  }

  /**
   * One slice per grocery type among the rows: every type of the rows has a slice, and every
   * slice's type has rows, from which alone its value is computed.
   */
  lemma SlicesPerType(rows: seq<Row>, value: seq<Row> -> Option<real>)
    ensures forall r :: r in rows ==> exists i :: 0 <= i < |SlicesBy(rows, value)| && SlicesBy(rows, value)[i].name == r.groceryType
    ensures forall i :: 0 <= i < |SlicesBy(rows, value)| ==>
      && Select(rows, TypeOf, SlicesBy(rows, value)[i].name) != []
      && SlicesBy(rows, value)[i].value == value(Select(rows, TypeOf, SlicesBy(rows, value)[i].name))
  {
    var gs := GroupBy(rows, TypeOf);
    var cd := SlicesBy(rows, value);
    SlicesByGroups(rows, value);
    GroupByGroups(rows, TypeOf);
    forall r | r in rows
      ensures exists i :: 0 <= i < |cd| && cd[i].name == r.groceryType
    {
      var i :| 0 <= i < |gs| && gs[i].0 == TypeOf(r);
      assert cd[i].name == r.groceryType;
    }
  }

  /** The slice of the k-th group in percent mode. */
  function PercentSliceFn(groceryData: seq<(string, seq<Row>)>): int --> Slice {
    k requires 0 <= k < |groceryData| => Slice(groceryData[k].0, PercentValue(groceryData[k].1))
  }

  /** The per-type loop of lines 114-142, pushing one slice per group. */
  method PercentSlices(groceryData: seq<(string, seq<Row>)>) returns (chartData: seq<Slice>)
    ensures |chartData| == |groceryData|
    ensures forall i :: 0 <= i < |groceryData| ==> chartData[i] == Slice(groceryData[i].0, PercentValue(groceryData[i].1))
  {
    chartData := [];
    for i := 0 to |groceryData|
      invariant chartData == Tabulate(0, i, PercentSliceFn(groceryData))
    {
      var groceryType := groceryData[i].0;
      var values := groceryData[i].1;
      var avgPercentageChange := TypePercent(groceryType, values);
      chartData := chartData + [Slice(groceryType, avgPercentageChange)];
    }
    TabulateAt(0, |groceryData|, PercentSliceFn(groceryData));
  }

  // ---------------------------------------------------------------------------------------
  // The positive/negative split of `updateVis` (lines 165-166)

  predicate NonNegative(s: Slice) {
    s.value.Some? && s.value.value >= 0.0
  }

  predicate Negative(s: Slice) {
    s.value.Some? && s.value.value < 0.0
  }

  predicate Defined(s: Slice) {
    s.value.Some?
  }

  /** The slices drawn in the pie, in order. */
  function PositiveData(chartData: seq<Slice>): seq<Slice> {
    Filter(chartData, NonNegative)
  }

  /** The slices left out of the pie, in order. */
  function NegativeData(chartData: seq<Slice>): seq<Slice> {
    Filter(chartData, Negative)
  }

  /**
   * Every defined slice lands in exactly one part, according to its sign; an undefined one in
   * neither; and together the parts have as many slices as there are defined ones.
   */
  lemma SplitPartition(chartData: seq<Slice>)
    ensures forall s :: s in PositiveData(chartData) <==> s in chartData && s.value.Some? && s.value.value >= 0.0
    ensures forall s :: s in NegativeData(chartData) <==> s in chartData && s.value.Some? && s.value.value < 0.0
    ensures |PositiveData(chartData)| + |NegativeData(chartData)| == |Filter(chartData, Defined)|
  {
    FilterMembers(chartData, NonNegative);
    FilterMembers(chartData, Negative);
    FilterSplit(chartData, NonNegative, Negative, Defined);
  }

  // ---------------------------------------------------------------------------------------
  // The chart object

  class CircleChart {
    var data: seq<Row>
    var percent: bool
    var minYear: Option<real>
    var maxYear: Option<real>
    var chartData: seq<Slice>

    /**
     * The constructor. `initVis` binds the slider's update handler when the page has the slider
     * (`slider` holds its initial bounds then); the handler fires once on binding and stores
     * the bounds. `initVis` then ends in `wrangleData` with the categories checked at that
     * moment.
     */
    constructor(data: seq<Row>, percent: bool, selectedCategories: seq<string>, slider: Option<(real, real)>)
      ensures this.data == data && this.percent == percent
      ensures minYear == (if slider.Some? then Some(slider.value.0) else None)
      ensures maxYear == (if slider.Some? then Some(slider.value.1) else None)
      ensures chartData == ChartData(data, percent, selectedCategories, minYear, maxYear)
    {
      this.data := data;
      this.percent := percent;
      minYear := None;
      maxYear := None;
      new;
      if slider.Some? {
        SetYearRange(slider.value.0, slider.value.1, selectedCategories);
      }
      WrangleData(selectedCategories);
    }

    /** The slider handler of lines 58-63: store the selected range and wrangle again. */
    method SetYearRange(minSelectedYear: real, maxSelectedYear: real, selectedCategories: seq<string>)
      modifies this
      ensures data == old(data) && percent == old(percent)
      ensures minYear == Some(minSelectedYear) && maxYear == Some(maxSelectedYear)
      ensures chartData == ChartData(data, percent, selectedCategories, minYear, maxYear)
    {
      minYear := Some(minSelectedYear);
      maxYear := Some(maxSelectedYear);
      WrangleData(selectedCategories);
    }

    /** `wrangleData` (lines 81-158) with the checked categories as a parameter. */
    method WrangleData(selectedCategories: seq<string>)
      modifies this`chartData
      ensures chartData == ChartData(data, percent, selectedCategories, minYear, maxYear)
    {
      var filteredData := CategoryFilter(data, selectedCategories);
      filteredData := YearFilter(filteredData, minYear, maxYear);
      chartData := [];
      var groceryData := GroupBy(filteredData, TypeOf);
      if percent {
        chartData := PercentSlices(groceryData);
      } else {
        chartData := seq(|groceryData|, i requires 0 <= i < |groceryData| =>
          Slice(groceryData[i].0, Per100gValue(groceryData[i].1)));
      }
      assert chartData == Slices(filteredData, percent);
    }
  }
}
