/** Sums and means over exact reals, the model of d3.sum and d3.mean. */
module Stats {
  import opened Options

  function Sum(xs: seq<real>): real {
    if xs == [] then 0.0 else Sum(xs[..|xs| - 1]) + xs[|xs| - 1]
  }

  /** d3.mean: the arithmetic mean, or undefined (None) for an empty input. */
  function Mean(xs: seq<real>): (m: Option<real>)
    ensures m.None? <==> xs == []
  {
    if xs == [] then None else Some(Sum(xs) / (|xs| as real))
  }

  /** A non-empty sum of positive terms is positive. */
  lemma {:induction false} SumPositive(xs: seq<real>)
    requires xs != [] && forall i :: 0 <= i < |xs| ==> xs[i] > 0.0
    ensures Sum(xs) > 0.0
  {
    if |xs| > 1 {
      SumPositive(xs[..|xs| - 1]);
    }
  }

  /** The mean of positive numbers is defined and positive. */
  lemma MeanPositive(xs: seq<real>)
    requires xs != [] && forall i :: 0 <= i < |xs| ==> xs[i] > 0.0
    ensures Mean(xs).Some? && Mean(xs).value > 0.0
  {
    SumPositive(xs);
  }

  /** The relative change from `prev` to `cur`. */
  function Change(prev: real, cur: real): real
    requires prev != 0.0
  {
    (cur - prev) / prev
  }

  /**
   * The change scaled by the starting value is the difference; from a positive start it is
   * positive, zero or negative as the value rises, stays or falls.
   */
  lemma ChangeScaled(prev: real, cur: real)
    requires prev != 0.0
    ensures Change(prev, cur) * prev == cur - prev
    ensures prev > 0.0 ==> (Change(prev, cur) > 0.0 <==> cur > prev)
    ensures Change(prev, cur) == 0.0 <==> cur == prev
  {
  }
}
