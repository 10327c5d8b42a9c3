/**
 * The beginner's calculator: favourable over total outcomes with the
 * favourable count clamped into [0, total], and the wording it uses to
 * interpret a result.
 */
module BasicCalculator {
  import Ratios

  /**
   * favorable / total after clamping favorable first up to 0 and then down
   * to total; a zero total gives 0.
   */
  method CalculateBasicProbability(favorable: int, total: int) returns (probability: real)
    ensures total == 0 ==> probability == 0.0
    ensures total > 0 ==> 0.0 <= probability <= 1.0
    ensures total > 0 && favorable <= 0 ==> probability == 0.0
    ensures total > 0 && favorable >= total ==> probability == 1.0
    ensures total > 0 && 0 <= favorable <= total ==> probability == Ratios.CalculateProbability(favorable, total)
    ensures total < 0 ==> probability == 1.0
  {
    if total == 0 {
      return 0.0;
    }
    var clamped := favorable;
    if clamped < 0 {
      clamped := 0;
    }
    if clamped > total {
      clamped := total;
    }
    probability := clamped as real / total as real;
  }

  /** The five worked examples: a coin, a die face, a heart, a 7 on a die, any face. */
  method SimpleExamples() returns (coin: real, dieFace: real, heart: real, seven: real, anyFace: real)
    ensures coin == 0.5 && dieFace == 1.0 / 6.0 && heart == 0.25
    ensures seven == 0.0 && anyFace == 1.0
  {
    coin := CalculateBasicProbability(1, 2);
    dieFace := CalculateBasicProbability(1, 6);
    heart := CalculateBasicProbability(13, 52);
    seven := CalculateBasicProbability(0, 6);
    anyFace := CalculateBasicProbability(6, 6);
  }

  datatype Interpretation = Impossible | Certain | Unlikely | Likely | EvenChance

  /** The first matching test of the chain: 0, then 1, then below a half, then above. */
  function Interpret(result: real): (i: Interpretation)
    ensures 0.0 < result < 1.0 ==> i != Impossible && i != Certain
  {
    if result == 0.0 then Impossible
    else if result == 1.0 then Certain
    else if result < 0.5 then Unlikely
    else if result > 0.5 then Likely
    else EvenChance
  }

  /** Each wording is given to exactly the values this describes. */
  lemma InterpretCharacterized(result: real)
    ensures Interpret(result) == Impossible <==> result == 0.0
    ensures Interpret(result) == Certain <==> result == 1.0
    ensures Interpret(result) == Unlikely <==> result < 0.5 && result != 0.0
    ensures Interpret(result) == Likely <==> result > 0.5 && result != 1.0
    ensures Interpret(result) == EvenChance <==> result == 0.5
  {
  }

  /** Interpreting the examples: even chance, unlikely, unlikely, impossible, certain. */
  method InterpretedExamples() returns (words: seq<Interpretation>)
    ensures words == [EvenChance, Unlikely, Unlikely, Impossible, Certain]
  {
    var coin, dieFace, heart, seven, anyFace := SimpleExamples();
    words := [Interpret(coin), Interpret(dieFace), Interpret(heart), Interpret(seven), Interpret(anyFace)];
  }
}
