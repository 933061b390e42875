# Grocery price charts: the aggregation core in Dafny

A D3 dashboard of Canadian grocery prices. Each chart turns one shared list of observations into
its own data before drawing anything. An observation is a product, its grocery type, its
100-gram ratio, its unit, a monthly price, a month and a region. This project models that data
side and proves what each chart's numbers mean:

- **Loading** (`js/main.js`). The price table is joined with the product-mapping table. An
  unmapped product gets the "Unknown" defaults; it is not dropped.
- **Line chart** (`js/lineChart.js`). Per grocery type, in one of two modes:
  - **Year-over-year** ("1-year"): the relative change in mean price between consecutive years
    present.
  - **Rolling window** (any other selector): one record per calendar year of the data's span.
    Each record averages the year-to-year changes inside a window of 2, 4 or 8 years.
- **Dot chart** (`js/dotChart.js`). Rows are grouped by type, region and half-year ("2021-H2").
  Each half-year group after the first yields its change against the previous group's mean,
  provided that mean is positive.
- **Circle chart** (`js/circleChart.js`). The rows are filtered by category and year range, then
  each type gets one slice. A slice holds either the mean yearly percentage change, or the mean
  price per 100 g over the rows sold by the piece. The pie later splits the slices into
  non-negative and negative ones.
- **Bar chart** (`js/barChart.js`). For each product with a 2020 row: the percentage change from
  its first 2020 price to its last price.
- **Area chart** (`js/areaChart.js`). The mean price per (month, region), pivoted into one row
  per month with a cell per region, and 0 for a missing cell. The y-domain is [0, the largest row
  total].

## How the library is modelled

- **`d3.group` / `d3.groups`**: `Grouping.GroupBy`. The keys come in first-seen order, and each
  group keeps input order (`Grouping.Select`).
- **`d3.mean`**: `Stats.Mean`, over exact reals. It is `None` ("undefined") for no values.
- **`d3.rollup`**: `AreaChart.Rollup`.
- **`Array.prototype.find`**: `Grouping.Find`.
- **Dates**: parsed from "%Y-%m", so each is the first day of a month. A date is a (year, month)
  pair and is compared through `Observations.Ordinal`. d3's maps key dates by value, so two rows
  of the same month share an entry.
- **Division**: every division of prices or means goes through `Stats.Change(prev, cur)`,
  which is `(cur - prev) / prev`. The window half-widths `Math.floor(windowSize / 2)` and
  `Math.ceil(windowSize / 2)` are written `w / 2` and `(w + 1) / 2` on the natural number `w`.
- **Template literals**: `${year}` is `Decimal.IntToString`, decimal digits with a leading
  minus sign for negative years.
- **Side effects**: the `push` loops and `forEach` callbacks are methods with loops. Each is
  proved equal to a specification function (`Grouping.Collect`, `Grouping.Tabulate` and
  `Grouping.Concat` build those). The properties are then proved about the functions.
- **Classes**: the circle and area charts store their results in fields, so they are classes.
  The bar chart stores `processedData` in its constructor.

## Model

| member | source | states |
|---|---|---|
| Loader.GroceryMap | js/main.js:14-21 | the map's keys are exactly the products of the mapping rows |
| Loader.BuildGroceryMap | js/main.js:14-21 | the `forEach` fills the map exactly as `GroceryMap` describes |
| Loader.LastRowWins | js/main.js:15-19 | with duplicate products, the last mapping row of a product is the one kept |
| Loader.JoinRows | js/main.js:24-38 | one joined row per price row, in order |
| Loader.LoadedRow | js/main.js:24-38 | every price row yields one row with its product, region, date and price; an unmapped product gets "Unknown", 1 and "Unknown"; a mapped one takes its last mapping row's type, ratio and unit |
| Observations.OrdinalOrder | js/lineChart.js:77-80 | comparing month ordinals is comparing (year, month) lexicographically, and equal ordinals are equal dates |
| Observations.MeanPrice | js/lineChart.js:48-49 | the mean price of a non-empty group is the defined d3.mean of its prices |
| Observations.MeanPricePositive | js/lineChart.js:48-50 | positive prices have a positive mean, so dividing by it is safe |
| Observations.MinDate | js/lineChart.js:24 | undefined exactly for no rows; otherwise the date of some row and not after any row's date |
| Observations.MaxDate | js/lineChart.js:25 | undefined exactly for no rows; otherwise the date of some row and not before any row's date |
| Observations.MinNotAfterMax | js/lineChart.js:24-25 | for some rows, the earliest date is not after the latest |
| Stats.Mean | js/circleChart.js:137 | d3.mean is undefined exactly when there is nothing to average |
| Stats.MeanPositive | js/lineChart.js:48-49 | the mean of positive numbers is defined and positive |
| Stats.ChangeScaled | js/barChart.js:18-19 | the change times the start is the difference; from a positive start it is positive exactly when the value rose; it is zero exactly when the value stayed |
| Grouping.FirstSeenKeys | js/lineChart.js:28 | d3.group's keys are exactly the keys of the input's elements |
| Grouping.FirstSeenDistinct | js/lineChart.js:28 | d3.group lists each key once |
| Grouping.FirstSeenOrder | js/dotChart.js:19-23 | keys are listed in the order of their first occurrence |
| Grouping.GroupByGroups | js/barChart.js:9 | every group is non-empty and holds exactly the elements with its key; every element's key has a group |
| Grouping.GroupByDistinct | js/barChart.js:9 | no two groups share a key |
| Grouping.SelectMembers | js/lineChart.js:44 | a group holds exactly the elements with its key, and it is non-empty exactly when its key is listed |
| Grouping.FindFirst | js/barChart.js:14 | `find` returns nothing exactly when no element passes, and otherwise the first element that passes |
| Grouping.SelectFind | js/barChart.js:14 | searching a group finds the input's first element with the group's key that passes, and finds nothing exactly when there is none |
| Grouping.SelectLast | js/barChart.js:15 | a group's last element is the input's last element with the group's key |
| Grouping.CollectMembers | js/barChart.js:17-24 | the values pushed are exactly the present values |
| Grouping.CollectKeys | js/barChart.js:13-25 | pushing a record only for the keys that pass names exactly the passing keys, in listed order |
| Yearly.YearsSorted | js/lineChart.js:37-38 | the years listed are strictly ascending and are exactly the years of the rows |
| Yearly.YearRowsMembers | js/lineChart.js:44-45 | a year's group holds exactly the rows of that year, and it is non-empty exactly for the years listed |
| LineChart.WindowSize | js/lineChart.js:11-19 | "1-year", "2-year" and "4-year" give 1, 2 and 4; "8-year" and every other selector give 8 |
| LineChart.YearMean | js/lineChart.js:48-49 | a year's mean price is positive when all prices are |
| LineChart.YearChangesShape | js/lineChart.js:89-100 | one change per pair of consecutive years present, from the earlier year's mean to the later's |
| LineChart.YearsAtLeastTwo | js/lineChart.js:89-102 | at least two years are present exactly when two rows differ in year |
| LineChart.YearlyChanges | js/lineChart.js:86-100 | the loop carrying `previousYearAvg` pushes exactly the consecutive-year changes |
| LineChart.YearOverYear | js/lineChart.js:37-62 | the year-over-year loop produces exactly `OneYearRecords` |
| LineChart.NoYearBetween | js/lineChart.js:38-42 | no row falls strictly between two consecutive years present, so `prevYear` is the previous year with data |
| LineChart.OneYearTableAt | js/lineChart.js:40-62 | record i is the record of year i + 1 of the sorted years |
| LineChart.OneYearRecordsShape | js/lineChart.js:40-62 | \|years\| - 1 records, none for a single year; each has the later year's Jan 1, mean, change, row count and both labels |
| LineChart.OneYearRecordsAscending | js/lineChart.js:38-54 | the year-over-year records are in strictly ascending date order |
| LineChart.OneYearRecordsType | js/lineChart.js:52-53 | every year-over-year record carries its type |
| LineChart.WindowRowsMembers | js/lineChart.js:77-80 | the window's rows are exactly the rows dated inside the window clipped to [minDate, maxDate] |
| LineChart.WindowYears | js/lineChart.js:71-80 | a window date lies in the window's years, and in its last year only on January 1 |
| LineChart.ClippingInert | js/lineChart.js:78-79 | for a date inside the data range, clipping the window changes nothing |
| LineChart.RollingRecordExists | js/lineChart.js:82-112 | a year gets a rolling record exactly when its window holds rows of two different years |
| LineChart.RollingRecordFields | js/lineChart.js:103-111 | a rolling record has Jan 1 of its year, the mean of the window's prices, the mean of the window's yearly changes, the window's row count and one comparison per pair of consecutive years |
| LineChart.RollingRecordPeriod | js/lineChart.js:108 | the period label is the first and last years of the unclipped window |
| LineChart.RollingBetweenMembers | js/lineChart.js:68-113 | the records of a run of evaluation years are exactly the records those years yield |
| LineChart.RollingBetweenYears | js/lineChart.js:68-105 | the records of a run of evaluation years are dated within it, at most one per year, in ascending year order |
| LineChart.RollingRecordsYears | js/lineChart.js:65-113 | a type's rolling series holds exactly the records of the calendar years from the data's earliest to its latest year, at most one per year, in strictly ascending date order |
| LineChart.RollingBetweenType | js/lineChart.js:103-104 | every rolling record carries its type |
| LineChart.EvaluateYear | js/lineChart.js:69-112 | one evaluation year yields exactly that year's record, if any |
| LineChart.RollingWindows | js/lineChart.js:65-113 | the loop over every calendar year from the earliest to the latest year of the data produces exactly `RollingRecords` |
| LineChart.TypeRecordsType | js/lineChart.js:30-115 | every record of type t's series carries t |
| LineChart.LineRecordsOfType | js/lineChart.js:28-115 | a type's records in the output are exactly its own series, computed from its rows and the global date range alone; a type without rows has none |
| LineChart.ProcessType | js/lineChart.js:30-114 | a type's rows go through the year-over-year loop for "1-year" and through the rolling loop otherwise |
| LineChart.ProcessGroup | js/lineChart.js:30-32 | the group of a type is selected and processed against the global date range |
| LineChart.ProcessData | js/lineChart.js:20-118 | the output is the types' series in first-seen type order, and nothing for no data |
| Decimal.IntToStringRoundTrip | js/lineChart.js:57-58 | the text `${year}` reads back as the year |
| Decimal.IntToStringInjective | js/dotChart.js:13 | two years give the same text exactly when they are equal, so the labels and half-year keys tell years apart |
| DotChart.HalfYearRoundTrip | js/dotChart.js:10-14 | a half-year key reads back as its date's year and half |
| DotChart.HalfYearSameKey | js/dotChart.js:10-14 | two dates share a key exactly when they share the year and the half |
| DotChart.HalfYearGroupsKeys | js/dotChart.js:22 | each half-year group is non-empty and lies in its half-year; every row has a group |
| DotChart.RecordAtFields | js/dotChart.js:31-48 | a group yields a record exactly when it is not the first and the previous mean is positive; the record has the key, the mean, the change against the previous mean and the first row's date |
| DotChart.RegionRecordsCount | js/dotChart.js:30-36 | the first group never yields a record, so a series has fewer records than groups |
| DotChart.RegionRecordsLabels | js/dotChart.js:38-45 | every record carries its type and region, and its date lies in its half-year |
| DotChart.RegionSeries | js/dotChart.js:29-49 | one (type, region) is grouped by half-year and then run through the group loop |
| DotChart.GroupSeries | js/dotChart.js:30-49 | the loop carrying `previousAvgPrice` pushes exactly the records `RecordAt` describes |
| DotChart.TypeSeries | js/dotChart.js:29-50 | a type's records are its regions' series in first-seen region order |
| DotChart.ProcessData | js/dotChart.js:17-54 | the output is the types' records in first-seen type order |
| DotChart.TypeRecordsLabels | js/dotChart.js:39 | every record of a type carries that type |
| DotChart.DotRecordsOfType | js/dotChart.js:19-51 | a type's records in the output are computed from that type's rows alone; a type without rows has none |
| DotChart.TypeRecordsOfRegion | js/dotChart.js:29-50 | within a type, a region's records are its own series from that type's and region's rows alone |
| CircleChart.CategoryFilterMembers | js/circleChart.js:96-100 | a row survives exactly when "All" or its own type is selected |
| CircleChart.YearFilterMembers | js/circleChart.js:103-108 | every row is kept unless both bounds are truthy; then exactly the rows whose year is within them |
| CircleChart.YearlyData | js/circleChart.js:115-117 | every year group is non-empty |
| CircleChart.YearlyDataGroups | js/circleChart.js:115-117 | the years are strictly ascending, each with exactly its rows, and every row's year has a group |
| CircleChart.YearMeans | js/circleChart.js:122-126 | one mean per year group |
| CircleChart.PairChangesMembers | js/circleChart.js:119-135 | the changes are exactly those of the consecutive pairs whose earlier mean is not zero; at most one per pair; none exactly when every earlier mean is zero |
| CircleChart.PercentValueUndefined | js/circleChart.js:137 | a type's value is undefined exactly when no pair of consecutive years has a non-zero earlier mean |
| CircleChart.TypePercent | js/circleChart.js:115-137 | one type's loop yields exactly `PercentValue` |
| CircleChart.PairChangeLoop | js/circleChart.js:120-135 | the `for` loop pushes exactly `PairChanges` of the year means |
| CircleChart.Per100gValueDefined | js/circleChart.js:147-149 | the value averages exactly the rows with unit "No", and is undefined exactly when there are none |
| CircleChart.SlicesDistinct | js/circleChart.js:112 | no two slices carry the same label |
| CircleChart.SlicesPerType | js/circleChart.js:112-154 | every type of the rows has a slice; every slice's type has rows, and its value comes from those rows alone |
| CircleChart.PercentSlices | js/circleChart.js:114-143 | the loop pushes, for each type group, its label and `PercentValue` |
| CircleChart.SplitPartition | js/circleChart.js:165-166 | each defined slice lands in exactly one part by its sign, an undefined one in neither, and the parts together count the defined slices |
| CircleChart.CircleChart.constructor | js/circleChart.js:2-7 | a new chart stores data and mode; with the year slider on the page it holds the slider's initial bounds, since its update handler (lines 58-64) fires on binding, and otherwise no year range; its chart data is that of its data, categories and year range |
| CircleChart.CircleChart.SetYearRange | js/circleChart.js:59-63 | the slider stores both bounds and recomputes the chart data with them |
| CircleChart.CircleChart.WrangleData | js/circleChart.js:81-158 | `chartData` is the slices of the category- and year-filtered rows in the chart's mode |
| BarChart.BaseIsFirst2020 | js/barChart.js:14 | a product's base is its first row from 2020 in input order; there is none exactly when it has no 2020 row |
| BarChart.LatestIsLast | js/barChart.js:15 | a product's latest row is its last row in input order, whatever its date |
| BarChart.BarRecordsOrder | js/barChart.js:13-25 | the bars name exactly the products with a 2020 row, each once, in first-seen product order |
| BarChart.BarRecordValues | js/barChart.js:17-23 | each bar's change is the percentage from the product's base price to its latest price, and 0 when the latest row is the base |
| BarChart.CompareWith2020 | js/barChart.js:14-24 | one product yields no record exactly when none of its rows is from 2020; otherwise its record names the product and holds (last price - first 2020 price) / first 2020 price × 100 |
| BarChart.ProcessData | js/barChart.js:8-28 | the loop produces exactly `BarRecords` |
| BarChart.BarChart.constructor | js/barChart.js:70 | the chart stores `processData` of its data |
| AreaChart.CellValue | js/areaChart.js:57-62 | a cell holds the mean price of exactly the rows of its month and region, and 0 when there are none |
| AreaChart.DatesSorted | js/areaChart.js:65-67 | the dates are strictly ascending and are exactly the months observed |
| AreaChart.RegionsListed | js/areaChart.js:70 | the regions are distinct and are exactly the regions observed |
| AreaChart.ProcessedCells | js/areaChart.js:73-79 | one row per date, in order, with a cell per region; each cell is the mean price of its rows, or 0 |
| AreaChart.BuildRow | js/areaChart.js:74-78 | the `forEach` over regions fills one cell per region |
| AreaChart.PivotRows | js/areaChart.js:73-79 | the `map` over dates builds one row per date |
| AreaChart.MaxTotal | js/areaChart.js:98-100 | the y-domain's top is undefined exactly for no rows; otherwise it is at least every row's total and equals one of them |
| AreaChart.AreaChart.constructor | js/areaChart.js:2-6 | a new chart holds the dates, regions, pivoted rows and y-domain of its data |
| AreaChart.AreaChart.WrangleData | js/areaChart.js:53-91 | the dates, regions and pivoted rows are recomputed from the data, then the y-domain |
| AreaChart.AreaChart.UpdateVis | js/areaChart.js:98-100 | the y-domain's top becomes the largest row total; nothing else changes |

## Left out

- Rendering: SVG, scales, axes, arcs, stacks, transitions, legends, titles, tooltips and event
  wiring. `js/mapVis.js` and `js/pieChart.js` only draw, so they are not part of this model.
  Only the data each chart draws from is modelled.
- Loading: fetching and parsing the CSV files (`d3.csv`, `d3.timeParse`, the `+` conversions).
  Rows arrive already parsed. A `REF_DATE` that does not parse is not modelled.
- Loader.GroceryMap: the product map is a plain object. A product named after an
  `Object.prototype` member ("constructor", "toString") would find an inherited value instead of
  the "Unknown" defaults; the model treats such names like any other.
- Floating point: all arithmetic is on exact reals. NaN and Infinity are not modelled. So
  d3.mean's skipping of NaN values and `|| 0` turning NaN into 0 are not modelled either.
- LineChart.ProcessData: requires every price to be positive. The source divides by a yearly
  mean with no guard, and the model does not produce the Infinity or NaN a zero mean would give.
- BarChart.ProcessData: requires that a product's first 2020 price is not zero, for the same
  reason (the source divides by it at js/barChart.js:19).
- The sort by date at js/lineChart.js:32 is left out. Every value computed from the sorted rows
  is independent of their order: means over exact reals, counts, filters and year groups sorted
  by year.
- The second `getWindowSize` at js/lineChart.js:120-128 replaces the first (same class, same
  name). The two bodies are identical, and `LineChart.WindowSize` models both.
- JavaScript maps years 0-99 to 1900-1999 in `new Date(year, 0, 1)`. The model does not; the
  data's years are four-digit.
- LineChart.RollingWindows: requires the earliest date not to be after the latest. That always
  holds because both come from the same non-empty data (`Observations.MinNotAfterMax`).
- The rolling window ends on January 1 of its last year (js/lineChart.js:74-75, 79). The model
  keeps that boundary as written, so the last year contributes only its January rows
  (`LineChart.WindowYears`).
- CircleChart.CircleChart.WrangleData: the checked categories are read from the page's
  checkboxes; the model takes them as a parameter. The `console` output is left out.
- CircleChart.CircleChart.constructor: the slider's initial bounds are set in the page's own
  script (noUiSlider), which is not part of this model; the constructor takes them as a
  parameter, `None` for a page without the slider.
- The circle chart's `label` field is called `name` in `CircleChart.Slice`, because `label` is a
  Dafny keyword.
- AreaChart.ProcessedCells: each pivoted row keeps its date apart from its cells. In the source
  both live in one object, so a region literally named "date" would overwrite the date. The data
  has no such region.
- AreaChart.AreaChart.UpdateVis: only the y-domain is modelled. The x-domain (`d3.extent` of the
  dates) and the stack layout feed rendering only.
- BarChart.CompareWith2020: the `latestData` test at js/barChart.js:17 is always true, because a
  d3 group is never empty. The model has no branch for it.
