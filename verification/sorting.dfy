/**
 * Ascending sort of distinct integer keys, the model of `Array.from(map.keys()).sort((a, b) => a - b)`
 * applied to the keys of a d3 group (which are already distinct).
 */
module Sorting {

  predicate Increasing(s: seq<int>) {
    forall i, j :: 0 <= i < j < |s| ==> s[i] < s[j]
  }

  /** Inserts x into an ascending sequence, unless it is already there. */
  function Insert(s: seq<int>, x: int): seq<int> {
    if s == [] then [x]
    else
      var last := s[|s| - 1];
      if last < x then s + [x]
      else if last == x then s
      else Insert(s[..|s| - 1], x) + [last]
  }

  /** Insertion keeps the sequence ascending and adds exactly x. */
  lemma {:induction false} InsertSorted(s: seq<int>, x: int)
    requires Increasing(s)
    ensures Increasing(Insert(s, x))
    ensures forall y :: y in Insert(s, x) <==> y in s || y == x
  {
    if s != [] && x < s[|s| - 1] {
      var front := s[..|s| - 1];
      var last := s[|s| - 1];
      assert s == front + [last];
      InsertSorted(front, x);
      var rest := Insert(front, x);
      assert forall y :: y in rest ==> y < last by {
        forall y | y in rest ensures y < last {
          if y in front {
            var k :| 0 <= k < |front| && front[k] == y;
            assert s[k] == y;
          }
        }
      }
      IncreasingSnoc(rest, last);
    }
  }

  lemma IncreasingSnoc(init: seq<int>, a: int)
    requires Increasing(init) && forall y :: y in init ==> y < a
    ensures Increasing(init + [a])
  {
    var s := init + [a];
    forall i, j | 0 <= i < j < |s| ensures s[i] < s[j] {
      if j == |init| {
        assert s[i] == init[i] && init[i] in init;
      } else {
        assert s[i] == init[i] && s[j] == init[j];
      }
    }
  }

  /** The distinct elements of `xs`, strictly ascending. */
  function SortedDistinct(xs: seq<int>): seq<int> {
    if xs == [] then [] else Insert(SortedDistinct(xs[..|xs| - 1]), xs[|xs| - 1])
  }

  /** The result is ascending and holds exactly the elements of the input. */
  lemma {:induction false} SortedDistinctSorted(xs: seq<int>)
    ensures Increasing(SortedDistinct(xs))
    ensures forall y :: y in SortedDistinct(xs) <==> y in xs
  {
    if xs != [] {
      var front := xs[..|xs| - 1];
      SortedDistinctSorted(front);
      InsertSorted(SortedDistinct(front), xs[|xs| - 1]);
      assert xs == front + [xs[|xs| - 1]];
    }
  }

  /** A strictly ascending sequence is determined by its elements: sorting has one answer. */
  lemma {:induction false} IncreasingUnique(a: seq<int>, b: seq<int>)
    requires Increasing(a) && Increasing(b)
    requires forall y :: y in a <==> y in b
    ensures a == b
  {
    if a != [] {
      assert a[0] in a;
    }
    if b != [] {
      assert b[0] in b;
    }
    if a != [] && b != [] {
      assert a[0] == b[0] by {
        assert a[0] in b && b[0] in a;
      }
      forall y ensures y in a[1..] <==> y in b[1..] {
        if y in a[1..] {
          assert y in b && y != b[0];
        }
        if y in b[1..] {
          assert y in a && y != a[0];
        }
      }
      IncreasingUnique(a[1..], b[1..]);
      assert a == [a[0]] + a[1..] && b == [b[0]] + b[1..];
    } else if a != [] {
      assert false;
    } else if b != [] {
      assert false;
    }
  }

  /** Two different members make a sequence at least two long. */
  lemma AtLeastTwo(r: seq<int>, a: int, b: int)
    requires a in r && b in r && a != b
    ensures |r| >= 2
  {
  }
}
