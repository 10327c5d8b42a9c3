# Probability Playground, modelled in Dafny

This project models the elementary probability routines of the Probability
Playground scripts. Probabilities are exact `real` ratios built from integer
counts, not Python floats. The model has five modules:

- `Ratios` (`ratios.dfy`) holds `calculate_probability`. It returns
  favourable over total, or 0 for a zero total. Both rule scripts define it
  identically, so it is defined once here. The module also holds Python's
  `abs` on reals.
- `ProbabilityRules` (`probability_rules.dfy`) holds the addition, multiplication
  and complement rules. The missing P(B|A) error is a `Result` failure. The
  module also has the class-survey and die scenarios as lemmas over the
  scripts' own numbers.
- `EventRelations` (`event_relations.dfy`) holds the mutual-exclusion test over
  outcome lists, the independence test within a tolerance (strict `<`,
  default 0.001) and conditional probability guarded against P(A) = 0. It
  also models the 52-card deck of the analyser. The face-card list is built
  by a loop, as in the script. The module proves the overlaps, independence
  verdicts and conditionals the script prints.
- `BasicCalculator` (`basic_calculator.dfy`) holds the beginner's calculator,
  which clamps `favorable` into `[0, total]` in two steps before dividing. It
  also holds the five-way wording chain that interprets a result.
- `ProbabilityCalculator` (`probability_calculator.dfy`) holds the three
  methods of the stateless `ProbabilityCalculator` class:
  - classical probability over outcome lists;
  - empirical probability, which normalises a table of counts;
  - the keyword classifier. It lower-cases a description and tries the
    empirical, classical and subjective keyword lists in that order.

The Bayesian updater of `task6-Bayes' Theorem Implementation.py` is not
modelled (see "## Left out"). Of the four modelled files, `empirical_probability`
is the only routine that normalises a table. It is proved to keep the key
set, to give values that sum to 1 and to keep the ratios between counts.

## Model

| member | source | states |
|---|---|---|
| `Ratios.CalculateProbability` | task4-Probability-Rules-Implementation.py:53-57 | a zero total gives 0; otherwise the result times the total is the favourable count |
| `Ratios.CalculateProbabilityBounds` | Event-Relationship-Analyzer.py:58-62 | a count between 0 and the total gives a probability in [0, 1], and all of a nonzero total gives 1 |
| `ProbabilityRules.AdditionRule` | task4-Probability-Rules-Implementation.py:1-12 | disjoint events add plainly; a nonnegative overlap keeps P(A or B) at most P(A) + P(B); an overlap no larger than either event keeps P(A or B) at least each of them |
| `ProbabilityRules.AdditionRuleSymmetric` | task4-Probability-Rules-Implementation.py:1-12 | the rule is symmetric in A and B and reduces to P(A) + P(B) when P(A and B) = 0 |
| `ProbabilityRules.AdditionRuleCountsUnion` | task4-Probability-Rules-Implementation.py:1-12 | with equally likely outcomes, the rule applied to the ratios of two sets and their intersection gives the ratio of their union (inclusion-exclusion) |
| `ProbabilityRules.MultiplicationRule` | task4-Probability-Rules-Implementation.py:15-37 | the call fails exactly when the events are dependent and no P(B given A) is given |
| `ProbabilityRules.IndependentIgnoresConditional` | task4-Probability-Rules-Implementation.py:30-31 | independent events give P(A) * P(B), and any P(B given A) passed is ignored |
| `ProbabilityRules.DependentWithoutConditionalFails` | task4-Probability-Rules-Implementation.py:35-36 | dependent events without P(B given A) fail with the source's ValueError message |
| `ProbabilityRules.DependentIgnoresPB` | task4-Probability-Rules-Implementation.py:33-37 | dependent events give P(A) * P(B given A), whatever P(B) is |
| `ProbabilityRules.DependentRecoversJoint` | task4-Probability-Rules-Implementation.py:33-37 | with P(A) = a/n and P(B given A) = b/a for counts a > 0 and b, the dependent product is b/n |
| `ProbabilityRules.ComplementRule` | task4-Probability-Rules-Implementation.py:40-49 | P(A) and P(not A) add to 1; an input in [0, 1] gives a result in [0, 1] |
| `ProbabilityRules.ComplementInvolution` | task4-Probability-Rules-Implementation.py:40-49 | taking the complement twice gives P(A) back |
| `ProbabilityRules.ComplementCountsRest` | task4-Probability-Rules-Implementation.py:40-49 | the complement of size(A)/size(S) is the share of S outside A |
| `ProbabilityRules.SurveyAdditionAndComplement` | task4-Probability-Rules-Implementation.py:68-99 | in the survey, P(Math or Science) = 45/60 and P(neither) = 15/60 |
| `ProbabilityRules.SurveyIsDependent` | task4-Probability-Rules-Implementation.py:74-124 | P(Science given Math) = 1/3, and the survey preferences fail the 0.001 independence check |
| `ProbabilityRules.SurveyMultiplication` | task4-Probability-Rules-Implementation.py:128-141 | the hypothetical independent product is 30/60 * 25/60; the dependent product 30/60 * 10/30 equals P(both) = 10/60, as the output line claims |
| `ProbabilityRules.DieRules` | task4-Probability-Rules-Implementation.py:151-172 | P(even or >4) = 4/6; the distance between 1/6 and 3/6 * 2/6 is below 0.001, so the events are independent; the independent product is 1/6; P(not even) = 1/2 |
| `ProbabilityRules.DieCounts` | task4-Probability-Rules-Implementation.py:146-153 | the die probabilities are the face counts of {2,4,6}, {5,6}, their overlap and their union over six faces |
| `EventRelations.AreMutuallyExclusive` | Event-Relationship-Analyzer.py:1-17 | true exactly when no outcome is in both lists |
| `EventRelations.MutualExclusionSymmetric` | Event-Relationship-Analyzer.py:1-17 | the test is symmetric in A and B and ignores the sample space |
| `EventRelations.MutualExclusionUsesElements` | Event-Relationship-Analyzer.py:12-17 | lists with the same elements give the same answer, so duplicates and order do not matter |
| `EventRelations.AreIndependent` | Event-Relationship-Analyzer.py:20-38 | true exactly when P(A and B) - P(A) * P(B) lies strictly inside (-tolerance, tolerance); the default tolerance is 0.001 |
| `EventRelations.ExactProductIsIndependent` | Event-Relationship-Analyzer.py:20-38 | an exact product always passes a positive tolerance |
| `EventRelations.IndependenceSymmetric` | Event-Relationship-Analyzer.py:20-38 | swapping A and B never changes the verdict, for every joint and every tolerance |
| `EventRelations.ConditionalProbability` | Event-Relationship-Analyzer.py:41-54 | P(A) = 0 gives 0; otherwise the result times P(A) is P(A and B) |
| `EventRelations.ConditionalThenMultiply` | Event-Relationship-Analyzer.py:41-54 | conditioning on A and then applying the dependent multiplication rule gives back P(A and B) |
| `EventRelations.IndependenceMeansNoInformation` | Event-Relationship-Analyzer.py:41-54 | for a joint that is exactly P(A) * P(B) with P(A) nonzero, P(B given A) = P(B) |
| `EventRelations.BuildFaceCards` | Event-Relationship-Analyzer.py:85-88 | the loop yields 12 cards; card j is the suit start of j / 3 plus 10 + j mod 3, which is the list 11,12,13, 24,25,26, 37,38,39, 50,51,52 |
| `EventRelations.HeartsMeetFaceCards` | Event-Relationship-Analyzer.py:95-100 | hearts and face cards share exactly {11,12,13}, three cards, so they are not mutually exclusive |
| `EventRelations.FaceCardsMeetRedCards` | Event-Relationship-Analyzer.py:103-108 | face cards and red cards share exactly six cards, so they are not mutually exclusive |
| `EventRelations.HeartsMeetRedCards` | Event-Relationship-Analyzer.py:111-116 | every heart is red, the overlap is all 13 hearts, so they are not mutually exclusive |
| `EventRelations.FaceCardCount` | Event-Relationship-Analyzer.py:85-88 | the twelve face cards the loop builds are twelve distinct cards |
| `EventRelations.CardProbabilities` | Event-Relationship-Analyzer.py:122-142 | the deck has 52 distinct cards, and each printed probability (hearts, face cards, red cards and their overlaps) is the size of its event or overlap over 52 |
| `EventRelations.CardIndependence` | Event-Relationship-Analyzer.py:145-161 | 13/52 * 12/52 is exactly 3/52, so hearts and face cards test independent; hearts and red cards do not |
| `EventRelations.PrintedSummaryContradictsTest` | Event-Relationship-Analyzer.py:186-188 | the summary's "NOT independent" verdict differs from the script's own test on the same numbers |
| `EventRelations.SummaryHeartsFaceIndependent` | Event-Relationship-Analyzer.py:148-153 | the verdict taken from the test is "independent", and P(face given heart) equals P(face) |
| `EventRelations.CardConditionals` | Event-Relationship-Analyzer.py:164-182 | P(face given heart) = 3/13 and P(heart given face) = 1/4 |
| `BasicCalculator.CalculateBasicProbability` | basic-probability-calculator.py:1-29 | a zero total gives 0; a positive total gives a value in [0, 1]: 0 for favourable <= 0, 1 for favourable >= total, the plain ratio in between; a negative total always gives 1 |
| `BasicCalculator.SimpleExamples` | basic-probability-calculator.py:36-83 | the five examples give 1/2, 1/6, 1/4, 0 and 1 |
| `BasicCalculator.Interpret` | basic-probability-calculator.py:104-113 | the if/elif chain; a value strictly between 0 and 1 is never impossible or certain, and `InterpretCharacterized` states which values get each wording |
| `BasicCalculator.InterpretCharacterized` | basic-probability-calculator.py:104-113 | each wording goes to exactly its values: 0 impossible, 1 certain, other values below 1/2 unlikely, other values above 1/2 likely, 1/2 even chance |
| `BasicCalculator.InterpretedExamples` | basic-probability-calculator.py:36-113 | the five examples read as even chance, unlikely, unlikely, impossible and certain |
| `ProbabilityCalculator.ClassicalProbability` | task2-Probability-Type-Classifier.py:2-6 | an empty sample space gives 0; otherwise the result times the space's length is the event's length; an event no longer than the space gives a value in [0, 1] |
| `ProbabilityCalculator.EvenDieFaces` | task2-Probability-Type-Classifier.py:64-67 | three even faces of six give 1/2 |
| `ProbabilityCalculator.SumCounts` | task2-Probability-Type-Classifier.py:13 | the loop's total is the sum of all counts in the table |
| `ProbabilityCalculator.EmpiricalProbability` | task2-Probability-Type-Classifier.py:8-21 | the map filled key by key equals the relative frequencies of the counts |
| `ProbabilityCalculator.EmpiricalKeepsKeys` | task2-Probability-Type-Classifier.py:10-21 | the result has exactly the table's keys; an empty table gives an empty map |
| `ProbabilityCalculator.EmpiricalZeroTotal` | task2-Probability-Type-Classifier.py:13-15 | counts that sum to 0 map every key to 0 |
| `ProbabilityCalculator.EmpiricalSumsToOne` | task2-Probability-Type-Classifier.py:13-21 | with a nonzero total the relative frequencies sum to 1 |
| `ProbabilityCalculator.EmpiricalKeepsRatios` | task2-Probability-Type-Classifier.py:17-19 | with a nonzero total any two keys keep the ratio of their counts: out[k] * c[j] = out[j] * c[k] |
| `ProbabilityCalculator.WeatherFrequencies` | task2-Probability-Type-Classifier.py:69-71 | the weather table gives 280/365, 70/365 and 15/365 |
| `ProbabilityCalculator.Lower` | task2-Probability-Type-Classifier.py:25 | lower-casing keeps the length, maps each ASCII upper-case letter to its lower-case partner, leaves no upper-case letter and leaves every other character unchanged |
| `ProbabilityCalculator.Contains` | task2-Probability-Type-Classifier.py:46 | true exactly when the word occurs in the text at some position |
| `ProbabilityCalculator.IdentifyProbabilityType` | task2-Probability-Type-Classifier.py:23-57 | the three loops with early return give the first list, in the order empirical, classical, subjective, that has a keyword in the lower-cased description, or Unknown |
| `ProbabilityCalculator.EmpiricalIsSticky` | task2-Probability-Type-Classifier.py:44-47 | an Empirical answer survives any appended text, since the empirical list is checked first |
| `ProbabilityCalculator.UnknownIffNoKeyword` | task2-Probability-Type-Classifier.py:44-57 | the answer is Unknown exactly when no keyword of the three lists occurs |
| `ProbabilityCalculator.ClassifyIgnoresCase` | task2-Probability-Type-Classifier.py:25 | lower-casing is idempotent: an already lower-cased description is left as it is |
| `ProbabilityCalculator.EquallyLikelyIsClassical` | task2-Probability-Type-Classifier.py:33-57 | "equally likely" contains the subjective keyword "likely" but is classified Classical, because the classical list is tried first |
| `ProbabilityCalculator.CoinTextIsEmpirical` | task2-Probability-Type-Classifier.py:28-47 | the lower-cased coin description is Empirical: it opens with the keyword "based on" |
| `ProbabilityCalculator.CardTextIsClassical` | task2-Probability-Type-Classifier.py:28-51 | the lower-cased card description has no empirical keyword and opens with "all cards", so it is Classical |
| `ProbabilityCalculator.WeatherTextIsSubjective` | task2-Probability-Type-Classifier.py:28-55 | the lower-cased weather description has no empirical or classical keyword and contains "feel", so it is Subjective |
| `ProbabilityCalculator.CoinTossDescriptionIsEmpirical` | task2-Probability-Type-Classifier.py:74 | "Based on 1000 coin toss observations" is Empirical |
| `ProbabilityCalculator.CardDescriptionIsClassical` | task2-Probability-Type-Classifier.py:75 | "All cards equally likely to be drawn" is Classical |
| `ProbabilityCalculator.WeatherFeelingIsSubjective` | task2-Probability-Type-Classifier.py:76 | "I feel it might rain today" is Subjective |

## Findings

| source | as written | input that shows it | evidently intended | confidence | as-written member | corrected member |
|---|---|---|---|---|---|---|
| Event-Relationship-Analyzer.py:188 | the summary prints "Hearts and Face cards are NOT independent" | P(Heart) = 13/52, P(Face) = 12/52 and P(Heart and Face) = 3/52, as at lines 123-133; 13/52 * 12/52 = 3/52 exactly, so `are_independent` at line 152 returns True | the summary states that hearts and face cards are independent | not executed; exact arithmetic | `EventRelations.PrintedSummaryContradictsTest` | `EventRelations.SummaryHeartsFaceIndependent` |

## Left out

- The Bayesian updater in `task6-Bayes' Theorem Implementation.py` and the card-game simulator in `task5-Card Game Probability Simulator.py` are not part of this model.
- Console output is left out: every `print`, the f-string formatting to fixed decimals, and the narration around the scenarios. Only the values the scripts compute and the verdicts they print are modelled.
- The interactive `input()`/`int()` reading and its `try/except ValueError` in the basic calculator are left out, because they are I/O. The wording chain it runs on the result is modelled as `Interpret`.
- IEEE-754 float rounding is left out. Every probability is an exact `real`. The `< 0.001` tolerance tests are decided on exact values.
- Python dict insertion order is left out. `EmpiricalProbability` works on a Dafny `map` and picks keys in an arbitrary order, so its result does not depend on the order.
- `EmpiricalProbability`: counts are integers, as in the script's weather table. Python would also accept float counts.
- Lower-casing covers ASCII `A`-`Z` only. Unicode-aware `str.lower()` is not modelled.
- `MultiplicationRule`: `pB` is always a real. The dependent call at task4 line 139 passes `None` for it. That branch never reads `pB`, and `DependentIgnoresPB` shows that any value gives the same result.
