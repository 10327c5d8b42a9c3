/**
 * The addition, multiplication and complement rules of probability, and the
 * two worked scenarios (a class survey and a die) that apply them.
 */
module ProbabilityRules {
  import opened Ratios

  datatype Option<T> = None | Some(value: T)

  /** A value, or the error a Python `raise ValueError(...)` would carry. */
  datatype Result<T> = Success(value: T) | Failure(message: string)

  const DependentNeedsConditional: string := "For dependent events, pB_given_A is required"

  // ---------------------------------------------------------------------
  // Addition rule
  // ---------------------------------------------------------------------

  /** P(A or B) = P(A) + P(B) - P(A and B). */
  function AdditionRule(pA: real, pB: real, pAAndB: real): (r: real)
    ensures pAAndB == 0.0 ==> r == pA + pB
    ensures 0.0 <= pAAndB ==> r <= pA + pB
    ensures pAAndB <= pA && pAAndB <= pB ==> pA <= r && pB <= r
  {
    pA + pB - pAAndB
  }

  /** The rule is symmetric in A and B, and adds plainly for disjoint events. */
  lemma AdditionRuleSymmetric(pA: real, pB: real, pAAndB: real)
    ensures AdditionRule(pA, pB, pAAndB) == AdditionRule(pB, pA, pAAndB)
    ensures AdditionRule(pA, pB, 0.0) == pA + pB
  {
  }

  /** Inclusion-exclusion on finite sets: |A u B| + |A n B| = |A| + |B|. */
  lemma {:induction false} UnionIntersectionCount<T>(a: set<T>, b: set<T>)
    ensures |a + b| + |a * b| == |a| + |b|
    decreases |a|
  {
    if a != {} {
      var x :| x in a;
      var rest := a - {x};
      UnionIntersectionCount(rest, b);
      if x in b {
        assert a + b == rest + b;
        assert a * b == rest * b + {x};
        assert x !in rest * b;
      } else {
        assert a + b == (rest + b) + {x};
        assert x !in rest + b;
        assert a * b == rest * b;
      }
    }
  }

  /**
   * With equally likely outcomes, the addition rule applied to the ratios of
   * two events and of their overlap gives the ratio of their union.
   */
  lemma AdditionRuleCountsUnion<T>(a: set<T>, b: set<T>, total: int)
    requires total > 0
    ensures AdditionRule(CalculateProbability(|a|, total), CalculateProbability(|b|, total),
                         CalculateProbability(|a * b|, total))
         == CalculateProbability(|a + b|, total)
  {
    UnionIntersectionCount(a, b);
    var t := total as real;
    assert (|a| as real + |b| as real - |a * b| as real) == |a + b| as real;
    assert |a| as real / t + |b| as real / t - |a * b| as real / t
        == (|a| as real + |b| as real - |a * b| as real) / t;
  }

  // ---------------------------------------------------------------------
  // Multiplication rule
  // ---------------------------------------------------------------------

  /**
   * P(A and B): P(A) * P(B) for independent events; for dependent events
   * P(A) * P(B|A), which the caller must supply.
   */
  function MultiplicationRule(pA: real, pB: real, areIndependent: bool, pBGivenA: Option<real> := None): (r: Result<real>)
    ensures r.Failure? <==> !areIndependent && pBGivenA.None?
  {
    if areIndependent then Success(pA * pB)
    else if pBGivenA.None? then Failure(DependentNeedsConditional)
    else Success(pA * pBGivenA.value)
  }

  /** Independent events multiply, and any P(B|A) passed along is ignored. */
  lemma IndependentIgnoresConditional(pA: real, pB: real, given: Option<real>)
    ensures MultiplicationRule(pA, pB, true, given) == MultiplicationRule(pA, pB, true)
    ensures MultiplicationRule(pA, pB, true, given) == Success(pA * pB)
  {
  }

  /** Dependent events without P(B|A) are refused with the source's message. */
  lemma DependentWithoutConditionalFails(pA: real, pB: real)
    ensures MultiplicationRule(pA, pB, false) == Failure(DependentNeedsConditional)
  {
  }

  /** Dependent events multiply P(A) by P(B|A), whatever P(B) is. */
  lemma DependentIgnoresPB(pA: real, pB: real, otherPB: real, given: real)
    ensures MultiplicationRule(pA, pB, false, Some(given)) == MultiplicationRule(pA, otherPB, false, Some(given))
    ensures MultiplicationRule(pA, pB, false, Some(given)) == Success(pA * given)
  {
    var r := MultiplicationRule(pA, pB, false, Some(given));
    assert r.Success? && r.value == pA * given;
  }

  /**
   * Counting partner of the dependent rule: with P(A) = |A|/n and
   * P(B|A) = |A and B|/|A|, the product is |A and B|/n.
   */
  lemma DependentRecoversJoint(inA: int, inBoth: int, total: int, pB: real)
    requires 0 < inA && 0 < total
    ensures MultiplicationRule(CalculateProbability(inA, total), pB, false,
                               Some(CalculateProbability(inBoth, inA)))
         == Success(CalculateProbability(inBoth, total))
  {
    var a, t := inA as real, total as real;
    assert (a / t) * (inBoth as real / a) == inBoth as real / t;
    var r := MultiplicationRule(CalculateProbability(inA, total), pB, false, Some(CalculateProbability(inBoth, inA)));
    assert r.Success? && r.value == inBoth as real / t;
  }

  // ---------------------------------------------------------------------
  // Complement rule
  // ---------------------------------------------------------------------

  /** P(not A) = 1 - P(A). */
  function ComplementRule(pA: real): (r: real)
    ensures r + pA == 1.0
    ensures 0.0 <= pA <= 1.0 ==> 0.0 <= r <= 1.0
  {
    1.0 - pA
  }

  /** Taking the complement twice gives the event back. */
  lemma ComplementInvolution(pA: real)
    ensures ComplementRule(ComplementRule(pA)) == pA
  {
  }

  /** Counting partner: the complement of |A|/|S| is the share of S outside A. */
  lemma ComplementCountsRest<T>(a: set<T>, space: set<T>)
    requires a <= space && |space| > 0
    ensures ComplementRule(CalculateProbability(|a|, |space|)) == CalculateProbability(|space - a|, |space|)
  {
    assert space == a + (space - a);
    assert a * (space - a) == {};
    UnionIntersectionCount(a, space - a);
    var n, k := |space| as real, |a| as real;
    assert |space - a| as real == n - k;
    assert (n - k) / n == n / n - k / n;
    assert n / n == 1.0;
  }

  // ---------------------------------------------------------------------
  // Class survey: 60 students, 30 like Math, 25 Science, 10 both
  // ---------------------------------------------------------------------

  const TotalStudents: int := 60
  const LikeMath: int := 30
  const LikeScience: int := 25
  const LikeBoth: int := 10

  /** P(Math or Science) = 45/60, and P(neither) = 15/60. */
  lemma SurveyAdditionAndComplement()
    ensures AdditionRule(CalculateProbability(LikeMath, TotalStudents),
                         CalculateProbability(LikeScience, TotalStudents),
                         CalculateProbability(LikeBoth, TotalStudents)) == 45.0 / 60.0
    ensures ComplementRule(AdditionRule(CalculateProbability(LikeMath, TotalStudents),
                                        CalculateProbability(LikeScience, TotalStudents),
                                        CalculateProbability(LikeBoth, TotalStudents))) == 15.0 / 60.0
  {
  }

  /** P(Science | Math) = 10/30, and the preferences test as dependent. */
  lemma SurveyIsDependent()
    ensures CalculateProbability(LikeBoth, LikeMath) == 1.0 / 3.0
    ensures !(Abs(CalculateProbability(LikeBoth, TotalStudents)
                  - CalculateProbability(LikeMath, TotalStudents) * CalculateProbability(LikeScience, TotalStudents)) < 0.001)
  {
  }

  /**
   * The hypothetical independent product is 30/60 * 25/60, while the
   * dependent product 30/60 * 10/30 equals P(both) = 10/60 for any P(B).
   */
  lemma SurveyMultiplication(pB: real)
    ensures MultiplicationRule(CalculateProbability(LikeMath, TotalStudents),
                               CalculateProbability(LikeScience, TotalStudents), true)
         == Success(750.0 / 3600.0)
    ensures MultiplicationRule(CalculateProbability(LikeMath, TotalStudents), pB, false,
                               Some(CalculateProbability(LikeBoth, LikeMath)))
         == Success(CalculateProbability(LikeBoth, TotalStudents))
  {
    DependentRecoversJoint(LikeMath, LikeBoth, TotalStudents, pB);
  }

  // ---------------------------------------------------------------------
  // Die: A = even face (2, 4, 6), B = face above 4 (5, 6)
  // ---------------------------------------------------------------------

  const PEven: real := 3.0 / 6.0
  const PAbove4: real := 2.0 / 6.0
  const PEvenAndAbove4: real := 1.0 / 6.0

  /**
   * P(even or above 4) = 4/6; the events test as independent, so their
   * product 1/6 comes from the independent rule; P(not even) = 1/2.
   */
  lemma DieRules()
    ensures AdditionRule(PEven, PAbove4, PEvenAndAbove4) == 4.0 / 6.0
    ensures Abs(PEvenAndAbove4 - PEven * PAbove4) < 0.001
    ensures MultiplicationRule(PEven, PAbove4, true) == Success(PEvenAndAbove4)
    ensures ComplementRule(PEven) == 0.5
  {
  }

  /** The die probabilities are the face counts of the events over six faces. */
  lemma DieCounts()
    ensures PEven == CalculateProbability(|{2, 4, 6}|, 6)
    ensures PAbove4 == CalculateProbability(|{5, 6}|, 6)
    ensures PEvenAndAbove4 == CalculateProbability(|{2, 4, 6} * {5, 6}|, 6)
    ensures AdditionRule(PEven, PAbove4, PEvenAndAbove4) == CalculateProbability(|{2, 4, 6} + {5, 6}|, 6)
  {
    assert {2, 4, 6} * {5, 6} == {6};
    assert {2, 4, 6} + {5, 6} == {2, 4, 5, 6};
  }
}
