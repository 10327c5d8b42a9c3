/**
 * Relations between two events: mutual exclusion over outcome lists,
 * independence within a tolerance, and conditional probability; applied to
 * a 52-card deck numbered 1..52 in four suits of thirteen.
 */
module EventRelations {
  import opened Ratios
  import opened ProbabilityRules

  /** The distinct outcomes of a list, as Python's `set(...)` gives them. */
  function Elements<T(==,!new)>(outcomes: seq<T>): (s: set<T>)
    ensures forall x :: x in s <==> x in outcomes
  {
    set x | x in outcomes
  }

  /** True when no outcome is in both events; the sample space is not consulted. */
  function AreMutuallyExclusive<T(==,!new)>(eventA: seq<T>, eventB: seq<T>, sampleSpace: seq<T>): (r: bool)
    ensures r <==> forall x :: x in eventA ==> x !in eventB
  {
    var common := Elements(eventA) * Elements(eventB);
    assert forall x :: x in eventA && x in eventB ==> x in common;
    assert |common| == 0 <==> common == {};
    |common| == 0
  }

  /** Mutual exclusion is symmetric and ignores the sample space. */
  lemma MutualExclusionSymmetric<T(!new)>(eventA: seq<T>, eventB: seq<T>, space: seq<T>, otherSpace: seq<T>)
    ensures AreMutuallyExclusive(eventA, eventB, space) == AreMutuallyExclusive(eventB, eventA, space)
    ensures AreMutuallyExclusive(eventA, eventB, space) == AreMutuallyExclusive(eventA, eventB, otherSpace)
  {
  }

  /** Only the elements matter: duplicates and order in the lists do not. */
  lemma MutualExclusionUsesElements<T(!new)>(eventA: seq<T>, eventB: seq<T>, otherA: seq<T>, otherB: seq<T>, space: seq<T>)
    requires Elements(eventA) == Elements(otherA) && Elements(eventB) == Elements(otherB)
    ensures AreMutuallyExclusive(eventA, eventB, space) == AreMutuallyExclusive(otherA, otherB, space)
  {
  }

  /** True when P(A and B) lies strictly within `tolerance` of P(A) * P(B). */
  function AreIndependent(pA: real, pB: real, pAAndB: real, tolerance: real := 0.001): (r: bool)
    ensures r <==> -tolerance < pAAndB - pA * pB < tolerance
  {
    var expected := pA * pB;
    AbsBelow(pAAndB - expected, tolerance);
    Abs(pAAndB - expected) < tolerance
  }

  /** An exact product always passes a positive tolerance. */
  lemma ExactProductIsIndependent(pA: real, pB: real, tolerance: real)
    requires tolerance > 0.0
    ensures AreIndependent(pA, pB, pA * pB, tolerance)
  {
  }

  /** Swapping A and B never changes the verdict, whatever the joint and the tolerance. */
  lemma IndependenceSymmetric(pA: real, pB: real, pAAndB: real, tolerance: real)
    ensures AreIndependent(pA, pB, pAAndB, tolerance) == AreIndependent(pB, pA, pAAndB, tolerance)
  {
    assert pA * pB == pB * pA;
  }

  /** P(B | A) = P(A and B) / P(A), or 0 when P(A) is 0. */
  function ConditionalProbability(pAAndB: real, pA: real): (r: real)
    ensures pA == 0.0 ==> r == 0.0
    ensures pA != 0.0 ==> r * pA == pAAndB
  {
    if pA == 0.0 then 0.0 else pAAndB / pA
  }

  /** Conditioning then multiplying by P(A) gives the joint back. */
  lemma ConditionalThenMultiply(pAAndB: real, pA: real, pB: real)
    requires pA != 0.0
    ensures MultiplicationRule(pA, pB, false, Some(ConditionalProbability(pAAndB, pA))) == Success(pAAndB)
  {
    var r := MultiplicationRule(pA, pB, false, Some(ConditionalProbability(pAAndB, pA)));
    assert r.Success? && r.value == pAAndB;
  }

  /** For exactly independent events, knowing A leaves P(B) unchanged. */
  lemma IndependenceMeansNoInformation(pA: real, pB: real)
    requires pA != 0.0
    ensures ConditionalProbability(pA * pB, pA) == pB
  {
    var r := ConditionalProbability(pA * pB, pA);
    assert r * pA == pB * pA;
  }

  // ---------------------------------------------------------------------
  // The deck
  // ---------------------------------------------------------------------

  /** Python's `list(range(lo, hi))`. */
  function Range(lo: int, hi: int): (r: seq<int>)
    ensures |r| == if lo <= hi then hi - lo else 0
    ensures forall i :: 0 <= i < |r| ==> r[i] == lo + i
    ensures forall x :: x in r <==> lo <= x < hi
    decreases hi - lo
  {
    if lo >= hi then [] else [lo] + Range(lo + 1, hi)
  }

  /** A range holds hi - lo distinct numbers. */
  lemma {:induction false} RangeSize(lo: int, hi: int)
    requires lo <= hi
    ensures |Elements(Range(lo, hi))| == hi - lo
    decreases hi - lo
  {
    if lo < hi {
      RangeSize(lo + 1, hi);
      assert Elements(Range(lo, hi)) == {lo} + Elements(Range(lo + 1, hi));
    } else {
      assert Elements(Range(lo, hi)) == {};
    }
  }

  /** A set holding exactly the numbers lo..hi-1 has hi - lo members. */
  lemma RunSize(s: set<int>, lo: int, hi: int)
    requires lo <= hi && forall x :: x in s <==> lo <= x < hi
    ensures |s| == hi - lo
  {
    RangeSize(lo, hi);
    assert s == Elements(Range(lo, hi));
  }

  /** The red royals: jack, queen and king of hearts and of diamonds. */
  lemma RoyalRunSizes()
    ensures |{11, 12, 13}| == 3 && |{24, 25, 26}| == 3
    ensures |{11, 12, 13, 24, 25, 26}| == 6
  {
    var jqk, diamonds := {11, 12, 13}, {24, 25, 26};
    RunSize(jqk, 11, 14);
    RunSize(diamonds, 24, 27);
    UnionIntersectionCount(jqk, diamonds);
    assert jqk * diamonds == {};
    assert jqk + diamonds == {11, 12, 13, 24, 25, 26};
  }

  const AllCards: seq<int> := Range(1, 53)
  const Hearts: seq<int> := Range(1, 14)
  const RedCards: seq<int> := Range(1, 27)
  const SuitStarts: seq<int> := [1, 14, 27, 40]
  const FaceCards: seq<int> := [11, 12, 13, 24, 25, 26, 37, 38, 39, 50, 51, 52]

  /** Jack, queen and king of each suit: positions 11, 12 and 13 past the suit's start. */
  method BuildFaceCards() returns (faceCards: seq<int>)
    ensures |faceCards| == 3 * |SuitStarts|
    ensures forall j :: 0 <= j < |faceCards| ==> faceCards[j] == SuitStarts[j / 3] + 10 + j % 3
    ensures faceCards == FaceCards
  {
    faceCards := [];
    for i := 0 to |SuitStarts|
      invariant |faceCards| == 3 * i
      invariant forall j :: 0 <= j < |faceCards| ==> faceCards[j] == SuitStarts[j / 3] + 10 + j % 3
    {
      var suitStart := SuitStarts[i];
      faceCards := faceCards + [suitStart + 10, suitStart + 11, suitStart + 12];
    }
  }

  /** The twelve face cards are distinct: the red royals and the black royals do not overlap. */
  lemma FaceCardCount()
    ensures |Elements(FaceCards)| == 12
  {
    var red, spades, clubs := {11, 12, 13, 24, 25, 26}, {37, 38, 39}, {50, 51, 52};
    RoyalRunSizes();
    RunSize(spades, 37, 40);
    RunSize(clubs, 50, 53);
    UnionIntersectionCount(spades, clubs);
    assert spades * clubs == {};
    var black := spades + clubs;
    UnionIntersectionCount(red, black);
    assert red * black == {};
    assert Elements(FaceCards) == red + black;
  }

  /** Face cards within a run of numbers starting at 1. */
  lemma FaceCardsBelow(s: seq<int>, hi: int)
    requires forall x :: x in s <==> 1 <= x < hi
    ensures hi == 14 ==> Elements(s) * Elements(FaceCards) == {11, 12, 13}
    ensures hi == 27 ==> Elements(FaceCards) * Elements(s) == {11, 12, 13, 24, 25, 26}
  {
  }

  /** Hearts share exactly the three royal hearts with the face cards. */
  lemma HeartsMeetFaceCards()
    ensures Elements(Hearts) * Elements(FaceCards) == {11, 12, 13}
    ensures |Elements(Hearts) * Elements(FaceCards)| == 3
    ensures !AreMutuallyExclusive(Hearts, FaceCards, AllCards)
  {
    FaceCardsBelow(Hearts, 14);
    RoyalRunSizes();
    assert 11 in Hearts;
  }

  /** Six face cards are red: the royals of hearts and diamonds. */
  lemma FaceCardsMeetRedCards()
    ensures Elements(FaceCards) * Elements(RedCards) == {11, 12, 13, 24, 25, 26}
    ensures |Elements(FaceCards) * Elements(RedCards)| == 6
    ensures !AreMutuallyExclusive(FaceCards, RedCards, AllCards)
  {
    FaceCardsBelow(RedCards, 27);
    RoyalRunSizes();
    assert 11 in RedCards;
  }

  /** Every heart is red, so the overlap is all thirteen hearts. */
  lemma HeartsMeetRedCards()
    ensures Elements(Hearts) * Elements(RedCards) == Elements(Hearts)
    ensures |Elements(Hearts) * Elements(RedCards)| == 13
    ensures !AreMutuallyExclusive(Hearts, RedCards, AllCards)
  {
    RangeSize(1, 14);
    assert 1 in Hearts && 1 in RedCards;
  }

  const PHeart: real := CalculateProbability(13, 52)
  const PFace: real := CalculateProbability(12, 52)
  const PRed: real := CalculateProbability(26, 52)
  const PHeartAndFace: real := CalculateProbability(3, 52)
  const PHeartAndRed: real := CalculateProbability(13, 52)
  const PFaceAndRed: real := CalculateProbability(6, 52)

  /** The card probabilities are the event sizes over the 52 cards. */
  lemma CardProbabilities()
    ensures |Elements(AllCards)| == 52
    ensures PHeart == CalculateProbability(|Elements(Hearts)|, 52) == 0.25
    ensures |Elements(FaceCards)| == 12 && PFace == CalculateProbability(|Elements(FaceCards)|, 52)
    ensures PRed == CalculateProbability(|Elements(RedCards)|, 52) == 0.5
    ensures PHeartAndFace == CalculateProbability(|Elements(Hearts) * Elements(FaceCards)|, 52)
    ensures PHeartAndRed == CalculateProbability(|Elements(Hearts) * Elements(RedCards)|, 52)
    ensures PFaceAndRed == CalculateProbability(|Elements(FaceCards) * Elements(RedCards)|, 52)
  {
    RangeSize(1, 53);
    RangeSize(1, 14);
    RangeSize(1, 27);
    HeartsMeetFaceCards();
    HeartsMeetRedCards();
    FaceCardsMeetRedCards();
    FaceCardCount();
  }

  /**
   * Hearts and face cards are independent (13/52 * 12/52 is exactly 3/52);
   * hearts and red cards are not (1/4 * 1/2 is 1/8, not 1/4).
   */
  lemma CardIndependence()
    ensures PHeart * PFace == PHeartAndFace
    ensures AreIndependent(PHeart, PFace, PHeartAndFace)
    ensures !AreIndependent(PHeart, PRed, PHeartAndRed)
  {
  }

  /** The closing summary's verdict on hearts and face cards, as printed: "NOT independent". */
  const PrintedHeartsFaceIndependent: bool := false

  /** The printed verdict disagrees with the independence test run on the same numbers. */
  lemma PrintedSummaryContradictsTest()
    ensures PrintedHeartsFaceIndependent != AreIndependent(PHeart, PFace, PHeartAndFace)
  {
    CardIndependence();
  }

  /**
   * The summary verdict taken from the independence test rather than written
   * by hand: hearts and face cards are independent, and knowing a card is a
   * heart leaves the chance of a face card at 12/52.
   */
  function SummaryHeartsFaceIndependent(): (independent: bool)
    ensures independent
    ensures independent ==> ConditionalProbability(PHeartAndFace, PHeart) == PFace
  {
    CardIndependence();
    IndependenceMeansNoInformation(PHeart, PFace);
    AreIndependent(PHeart, PFace, PHeartAndFace)
  }

  /** P(face | heart) = 3/13 and P(heart | face) = 1/4. */
  lemma CardConditionals()
    ensures ConditionalProbability(PHeartAndFace, PHeart) == 3.0 / 13.0
    ensures ConditionalProbability(PHeartAndFace, PFace) == 0.25
  {
  }
}
