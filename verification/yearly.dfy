/** The rows of each calendar year, with the years present in ascending order. */
module Yearly {
  import opened Grouping
  import opened Sorting
  import opened Observations

  /** The distinct years of the rows in ascending order: the sorted keys of d3.group by year. */
  function Years(rows: seq<Row>): seq<int> {
    SortedDistinct(FirstSeen(rows, YearOf))
  }

  /** The years listed are ascending and are exactly the years of the rows. */
  lemma YearsSorted(rows: seq<Row>)
    ensures Increasing(Years(rows))
    ensures forall y :: y in Years(rows) <==> exists i :: 0 <= i < |rows| && rows[i].date.year == y
  {
    SortedDistinctSorted(FirstSeen(rows, YearOf));
    FirstSeenKeys(rows, YearOf);
  }

  /** The group of one year, in input order. */
  function YearRows(rows: seq<Row>, year: int): seq<Row> {
    Select(rows, YearOf, year)
  }

  /** A year's group holds exactly the rows of that year, and it is non-empty exactly for the years listed. */
  lemma YearRowsMembers(rows: seq<Row>, year: int)
    ensures forall r :: r in YearRows(rows, year) <==> r in rows && r.date.year == year
    ensures YearRows(rows, year) != [] <==> year in Years(rows)
  {
    SelectMembers(rows, YearOf, year);
    SortedDistinctSorted(FirstSeen(rows, YearOf));
  }

  /** Each of the years `ys` has rows. */
  predicate AllHaveRows(rows: seq<Row>, ys: seq<int>) {
    forall y :: y in ys ==> YearRows(rows, y) != []
  }

  /** Each year listed has rows. */
  lemma YearsHaveRows(rows: seq<Row>)
    ensures AllHaveRows(rows, Years(rows))
  {
    forall y | y in Years(rows)
      ensures YearRows(rows, y) != []
    {
      YearRowsMembers(rows, y);
    }
  }
}
