/**
 * The ratio helper shared by the rule and event modules, and the absolute
 * value used by their independence tests. Probabilities are exact reals.
 */
module Ratios {

  /** favorable / total, or 0 when there are no outcomes at all. */
  function CalculateProbability(favorable: int, total: int): (p: real)
    ensures total == 0 ==> p == 0.0
    ensures total != 0 ==> p * total as real == favorable as real
  {
    if total == 0 then 0.0 else favorable as real / total as real
  }

  /** A count between zero and the total gives a probability in [0, 1]. */
  lemma CalculateProbabilityBounds(favorable: int, total: int)
    requires 0 <= favorable <= total
    ensures 0.0 <= CalculateProbability(favorable, total) <= 1.0
    ensures favorable == total && total != 0 ==> CalculateProbability(favorable, total) == 1.0
  {
  }

  /** Python's `abs` on a real. */
  function Abs(x: real): (r: real)
    ensures r >= 0.0
    ensures r == x || r == -x
  {
    if x < 0.0 then -x else x
  }

  /** `Abs(x) < tol` states a two-sided bound. */
  lemma AbsBelow(x: real, tol: real)
    ensures Abs(x) < tol <==> -tol < x < tol
  {
  }
}
