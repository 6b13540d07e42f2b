/**
  * Mean and sample deviation of a list of time differences, as both
  * parse_log.py and parse_deviation.py compute them. Float arithmetic is
  * modelled with reals and the square root is kept symbolic: a deviation cell
  * records the radicand whose root the script stores.
  */
module Moments {
  import opened Common

  /** `sum(d) / len(d)`, or None for an empty list. */
  function MeanOf(d: seq<int>): (m: Option<real>)
    ensures m.None? <==> d == []
  {
    if |d| > 0 then Some(Sum(d) as real / |d| as real) else None
  }

  /** The squared distances `(x - mean) ** 2` of every element, in order. */
  function SquaredDeviations(d: seq<int>, mean: real): (sq: seq<real>)
    ensures |sq| == |d|
    ensures forall k :: 0 <= k < |d| ==> sq[k] >= 0.0
  {
    seq(|d|, k requires 0 <= k < |d| => (d[k] as real - mean) * (d[k] as real - mean))
  }

  /**
    * One slot of a deviation list: None, the list of squared deviations the
    * first pass stores, or `math.sqrt(radicand)` once the second pass has
    * overwritten it.
    */
  datatype DevCell = NoneCell | Squares(values: seq<real>) | SqrtOf(radicand: real)

  /** The second pass: `sqrt(sum(sq) / (len(sq) - 1))` if `len(sq) - 1 > 0`, else None. */
  function Finish(cell: DevCell): DevCell
  {
    match cell
    case Squares(sq) => if |sq| - 1 > 0 then SqrtOf(SumReal(sq) / (|sq| - 1) as real) else NoneCell
    case _ => cell
  }

  /**
    * The first pass over one list: the squared deviations from the mean the
    * script stored for it (a mean is needed only when there is an element to
    * subtract it from).
    */
  function SquaresOf(d: seq<int>, mean: Option<real>): DevCell
    requires d != [] ==> mean.Some?
  {
    Squares(if d == [] then [] else SquaredDeviations(d, mean.value))
  }

  /** The deviation a list of differences ends with, given the mean stored for it. */
  function DeviationOf(d: seq<int>, mean: Option<real>): DevCell
    requires d != [] ==> mean.Some?
  {
    Finish(SquaresOf(d, mean))
  }

  /** The mean times the length gives back the sum. */
  lemma MeanScales(d: seq<int>)
    requires d != []
    ensures MeanOf(d).value * |d| as real == Sum(d) as real
  {
  }

  lemma {:induction false} SumRealNonNegative(s: seq<real>)
    requires forall k :: 0 <= k < |s| ==> s[k] >= 0.0
    ensures SumReal(s) >= 0.0
  {
    if s != [] {
      SumRealNonNegative(s[1..]);
    }
  }

  /**
    * With the list's own mean, the deviation is None exactly for lists of
    * fewer than two differences; otherwise its radicand is the sample
    * variance: non-negative, and times `len - 1` equal to the sum of squared
    * deviations from the mean.
    */
  lemma DeviationFacts(d: seq<int>)
    ensures DeviationOf(d, MeanOf(d)).NoneCell? <==> |d| < 2
    ensures !DeviationOf(d, MeanOf(d)).Squares?
    ensures |d| >= 2 ==>
      var r := DeviationOf(d, MeanOf(d)).radicand;
      r >= 0.0 && r * (|d| - 1) as real == SumReal(SquaredDeviations(d, MeanOf(d).value))
  {
    if |d| >= 2 {
      var total := SumReal(SquaredDeviations(d, MeanOf(d).value));
      SumRealNonNegative(SquaredDeviations(d, MeanOf(d).value));
      var n := (|d| - 1) as real;
      assert DeviationOf(d, MeanOf(d)).radicand == total / n;
    }
  }
}
