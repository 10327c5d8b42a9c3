/**
 * The three services of the stateless `ProbabilityCalculator` class:
 * classical probability (equally likely outcomes), empirical probability
 * (normalising a table of observed counts) and a keyword classifier that
 * names the kind of probability a free-text description talks about.
 * The class has no fields, so its methods are modelled as module members.
 */
module ProbabilityCalculator {

  // ---------------------------------------------------------------------
  // Classical probability
  // ---------------------------------------------------------------------

  /** |event| / |space|, or 0 for an empty sample space. Lengths count duplicates. */
  function ClassicalProbability<T>(eventOutcomes: seq<T>, sampleSpace: seq<T>): (p: real)
    ensures |sampleSpace| == 0 ==> p == 0.0
    ensures |sampleSpace| > 0 ==> p * |sampleSpace| as real == |eventOutcomes| as real
    ensures |eventOutcomes| <= |sampleSpace| ==> 0.0 <= p <= 1.0
  {
    if |sampleSpace| == 0 then 0.0 else |eventOutcomes| as real / |sampleSpace| as real
  }

  /** The classical probability of the die example: three even faces out of six. */
  lemma EvenDieFaces()
    ensures ClassicalProbability([2, 4, 6], [1, 2, 3, 4, 5, 6]) == 0.5
  {
  }

  // ---------------------------------------------------------------------
  // Empirical probability
  // ---------------------------------------------------------------------

  /** The sum of `m` over the keys in `keys`, in no particular order. */
  ghost function Sum<K>(m: map<K, real>, keys: set<K>): real
    requires keys <= m.Keys
    decreases keys
  {
    if keys == {} then 0.0 else var k :| k in keys; m[k] + Sum(m, keys - {k})
  }

  /** The sum does not depend on which key is taken out first. */
  lemma {:induction false} SumRemove<K>(m: map<K, real>, keys: set<K>, k: K)
    requires keys <= m.Keys && k in keys
    ensures Sum(m, keys) == m[k] + Sum(m, keys - {k})
    decreases keys
  {
    var j :| j in keys && Sum(m, keys) == m[j] + Sum(m, keys - {j});
    if j != k {
      SumRemove(m, keys - {j}, k);
      SumRemove(m, keys - {k}, j);
      assert keys - {j} - {k} == keys - {k} - {j};
    }
  }

  /** Adding a key to the summed set adds its value. */
  lemma SumInsert<K>(m: map<K, real>, keys: set<K>, k: K)
    requires keys <= m.Keys && k in m && k !in keys
    ensures Sum(m, keys + {k}) == Sum(m, keys) + m[k]
  {
    SumRemove(m, keys + {k}, k);
    assert keys + {k} - {k} == keys;
  }

  /** Dividing every summand by `t` divides the sum by `t`. */
  lemma {:induction false} SumScaled<K>(r: map<K, real>, c: map<K, real>, keys: set<K>, t: real)
    requires keys <= r.Keys && keys <= c.Keys && t != 0.0
    requires forall k :: k in keys ==> r[k] * t == c[k]
    ensures Sum(r, keys) * t == Sum(c, keys)
    decreases keys
  {
    if keys != {} {
      var k :| k in keys;
      SumRemove(r, keys, k);
      SumRemove(c, keys, k);
      SumScaled(r, c, keys - {k}, t);
      calc {
        Sum(r, keys) * t;
        (r[k] + Sum(r, keys - {k})) * t;
        r[k] * t + Sum(r, keys - {k}) * t;
        c[k] + Sum(c, keys - {k});
        Sum(c, keys);
      }
    }
  }

  /** The counts, as reals. */
  function AsReals<K>(counts: map<K, int>): (m: map<K, real>)
    ensures m.Keys == counts.Keys
    ensures forall k :: k in m ==> m[k] == counts[k] as real
  {
    map k | k in counts :: counts[k] as real
  }

  /** Python's `sum(observed_frequencies.values())`. */
  ghost function CountTotal<K>(counts: map<K, int>): real
  {
    Sum(AsReals(counts), counts.Keys)
  }

  /** Python's `sum` over the counts, accumulated key by key. */
  method SumCounts<K>(observedFrequencies: map<K, int>) returns (total: int)
    ensures total as real == CountTotal(observedFrequencies)
  {
    ghost var counts := AsReals(observedFrequencies);
    total := 0;
    var pending := observedFrequencies.Keys;
    ghost var summed: set<K> := {};
    while pending != {}
      invariant pending + summed == observedFrequencies.Keys && pending !! summed
      invariant total as real == Sum(counts, summed)
      decreases pending
    {
      var k :| k in pending;
      SumInsert(counts, summed, k);
      total := total + observedFrequencies[k];
      pending := pending - {k};
      summed := summed + {k};
    }
  }

  /**
   * The relative frequencies of a table of counts: every key gets 0 when the
   * counts sum to zero, and its count over the total otherwise.
   */
  ghost function Normalised<K>(counts: map<K, int>): map<K, real>
  {
    var total := CountTotal(counts);
    if total == 0.0 then map k | k in counts :: 0.0
    else map k | k in counts :: counts[k] as real / total
  }

  /** Turns observed counts into relative frequencies, key by key. */
  method EmpiricalProbability<K>(observedFrequencies: map<K, int>) returns (probabilities: map<K, real>)
    ensures probabilities == Normalised(observedFrequencies)
  {
    if |observedFrequencies| == 0 {
      return map[];
    }
    var total := SumCounts(observedFrequencies);
    if total == 0 {
      return map k | k in observedFrequencies :: 0.0;
    }
    probabilities := map[];
    var pending := observedFrequencies.Keys;
    while pending != {}
      invariant pending !! probabilities.Keys
      invariant pending + probabilities.Keys == observedFrequencies.Keys
      invariant forall k :: k in probabilities ==>
        probabilities[k] == observedFrequencies[k] as real / total as real
      decreases pending
    {
      var outcome :| outcome in pending;
      probabilities := probabilities[outcome := observedFrequencies[outcome] as real / total as real];
      pending := pending - {outcome};
    }
  }

  /** The result has exactly the keys of the table; an empty table gives an empty result. */
  lemma EmpiricalKeepsKeys<K>(counts: map<K, int>)
    ensures Normalised(counts).Keys == counts.Keys
    ensures |counts| == 0 ==> Normalised(counts) == map[]
  {
  }

  /** Counts summing to zero give every key probability 0. */
  lemma EmpiricalZeroTotal<K>(counts: map<K, int>)
    requires CountTotal(counts) == 0.0
    ensures forall k :: k in counts ==> Normalised(counts)[k] == 0.0
  {
  }

  /** Each relative frequency times the total gives back its count. */
  lemma NormalisedTimesTotal<K>(counts: map<K, int>)
    requires CountTotal(counts) != 0.0
    ensures forall k :: k in counts ==> Normalised(counts)[k] * CountTotal(counts) == AsReals(counts)[k]
  {
  }

  /** A nonzero factor that leaves its product unchanged multiplies by one. */
  lemma CancelFactor(s: real, t: real)
    requires t != 0.0 && s * t == t
    ensures s == 1.0
  {
    assert (s - 1.0) * t == 0.0;
  }

  /** Values that are `c` scaled down by the sum of `c` sum to one. */
  lemma ScaledSumIsOne<K>(r: map<K, real>, c: map<K, real>, t: real)
    requires r.Keys == c.Keys && t != 0.0 && t == Sum(c, c.Keys)
    requires forall k :: k in r ==> r[k] * t == c[k]
    ensures Sum(r, r.Keys) == 1.0
  {
    SumScaled(r, c, r.Keys, t);
    CancelFactor(Sum(r, r.Keys), t);
  }

  /** With a nonzero total the relative frequencies sum to one. */
  lemma EmpiricalSumsToOne<K>(counts: map<K, int>)
    requires CountTotal(counts) != 0.0
    ensures Sum(Normalised(counts), counts.Keys) == 1.0
  {
    NormalisedTimesTotal(counts);
    ScaledSumIsOne(Normalised(counts), AsReals(counts), CountTotal(counts));
  }

  /** With a nonzero total, any two keys keep the ratio of their counts. */
  lemma EmpiricalKeepsRatios<K>(counts: map<K, int>, k: K, j: K)
    requires CountTotal(counts) != 0.0 && k in counts && j in counts
    ensures Normalised(counts)[k] * counts[j] as real == Normalised(counts)[j] * counts[k] as real
  {
    var t := CountTotal(counts);
    assert Normalised(counts)[k] * t == counts[k] as real;
    assert Normalised(counts)[j] * t == counts[j] as real;
  }

  /** The weather table of the demonstration. */
  const WeatherCounts: map<string, int> := map["Sunny" := 280, "Rainy" := 70, "Cloudy" := 15]

  /** The weather observations add up to 365 days. */
  lemma WeatherTotal()
    ensures CountTotal(WeatherCounts) == 365.0
  {
    var m := AsReals(WeatherCounts);
    var all := WeatherCounts.Keys;
    assert all == {"Sunny", "Rainy", "Cloudy"};
    SumRemove(m, all, "Sunny");
    assert all - {"Sunny"} == {"Rainy", "Cloudy"};
    SumRemove(m, {"Rainy", "Cloudy"}, "Rainy");
    assert {"Rainy", "Cloudy"} - {"Rainy"} == {"Cloudy"};
    SumRemove(m, {"Cloudy"}, "Cloudy");
    assert {"Cloudy"} - {"Cloudy"} == {};
  }

  /** The relative frequencies of the weather table: 280/365, 70/365 and 15/365. */
  lemma WeatherFrequencies()
    ensures Normalised(WeatherCounts) == map["Sunny" := 280.0 / 365.0, "Rainy" := 70.0 / 365.0, "Cloudy" := 15.0 / 365.0]
  {
    WeatherTotal();
  }

  // ---------------------------------------------------------------------
  // Keyword classifier
  // ---------------------------------------------------------------------

  /** The four answers of the classifier (the strings "Empirical", ... of the source). */
  datatype ProbabilityType = Empirical | Classical | Subjective | Unknown

  const EmpiricalKeywords: seq<string> :=
    ["observed", "data", "survey", "experiment", "collected", "records", "study", "trial",
     "toss", "roll", "measure", "recorded", "based on", "observations"]

  const ClassicalKeywords: seq<string> :=
    ["equally likely", "fair", "balanced", "random", "theoretical", "all outcomes",
     "all cards", "all faces", "symmetrical"]

  const SubjectiveKeywords: seq<string> :=
    ["feel", "think", "believe", "guess", "estimate", "intuition", "gut feeling",
     "probably", "likely", "maybe", "perhaps", "might"]

  predicate IsUpper(c: char)
  {
    'A' <= c <= 'Z'
  }

  /** ASCII lower-casing of one character. */
  function LowerChar(c: char): (r: char)
    ensures !IsUpper(r)
    ensures !IsUpper(c) ==> r == c
    ensures IsUpper(c) ==> r as int - c as int == 'a' as int - 'A' as int
  {
    if IsUpper(c) then (c as int - 'A' as int + 'a' as int) as char else c
  }

  /** ASCII lower-casing of a string, character by character. */
  function Lower(s: string): (r: string)
    ensures |r| == |s|
    ensures forall i :: 0 <= i < |r| ==> !IsUpper(r[i])
    ensures forall i :: 0 <= i < |s| && !IsUpper(s[i]) ==> r[i] == s[i]
    ensures forall i :: 0 <= i < |s| ==> r[i] == LowerChar(s[i])
  {
    seq(|s|, i requires 0 <= i < |s| => LowerChar(s[i]))
  }

  /** `word` occurs in `text` starting at index `i`. */
  predicate OccursAt(text: string, word: string, i: nat)
  {
    i + |word| <= |text| && text[i..i + |word|] == word
  }

  /** An occurrence past the first character is an occurrence in the rest of the text. */
  lemma OccursInRest(text: string, word: string)
    requires |text| > 0
    ensures (exists i :: 1 <= i && OccursAt(text, word, i)) ==> exists j :: 0 <= j && OccursAt(text[1..], word, j)
  {
    if i :| 1 <= i && OccursAt(text, word, i) {
      assert text[1..][i - 1..i - 1 + |word|] == text[i..i + |word|];
      assert OccursAt(text[1..], word, i - 1);
    }
  }

  /** Python's `word in text` on strings: substring search. */
  function Contains(text: string, word: string): (r: bool)
    ensures r <==> exists i :: 0 <= i && OccursAt(text, word, i)
    decreases |text|
  {
    if |word| > |text| then
      false
    else if word <= text then
      assert OccursAt(text, word, 0);
      true
    else
      var rest := Contains(text[1..], word);
      OccursInRest(text, word);
      if rest then
        var i :| 0 <= i && OccursAt(text[1..], word, i);
        assert text[1..][i..i + |word|] == text[i + 1..i + 1 + |word|];
        assert OccursAt(text, word, i + 1);
        true
      else
        false
  }

  /** Some keyword of the list is a substring of `text`. */
  predicate Mentions(text: string, keywords: seq<string>)
  {
    exists w :: w in keywords && Contains(text, w)
  }

  /**
   * The answer for an already lower-cased description: the lists are tried
   * in the fixed order empirical, classical, subjective.
   */
  function Classify(text: string): ProbabilityType
  {
    if Mentions(text, EmpiricalKeywords) then Empirical
    else if Mentions(text, ClassicalKeywords) then Classical
    else if Mentions(text, SubjectiveKeywords) then Subjective
    else Unknown
  }

  /** The first `i` keywords of the list all fail to occur in `text`. */
  predicate NoneOfFirst(text: string, keywords: seq<string>, i: nat)
    requires i <= |keywords|
  {
    forall j :: 0 <= j < i ==> !Contains(text, keywords[j])
  }

  /**
   * Lower-cases the description and scans the three keyword lists in turn,
   * answering with the first list that has a keyword occurring in it.
   */
  method IdentifyProbabilityType(description: string) returns (kind: ProbabilityType)
    ensures kind == Classify(Lower(description))
  {
    var descLower := Lower(description);
    for i := 0 to |EmpiricalKeywords|
      invariant NoneOfFirst(descLower, EmpiricalKeywords, i)
    {
      if Contains(descLower, EmpiricalKeywords[i]) {
        return Empirical;
      }
    }
    for i := 0 to |ClassicalKeywords|
      invariant NoneOfFirst(descLower, ClassicalKeywords, i)
    {
      if Contains(descLower, ClassicalKeywords[i]) {
        return Classical;
      }
    }
    for i := 0 to |SubjectiveKeywords|
      invariant NoneOfFirst(descLower, SubjectiveKeywords, i)
    {
      if Contains(descLower, SubjectiveKeywords[i]) {
        return Subjective;
      }
    }
    return Unknown;
  }

  /** Every character of `text` is one of `chars`. */
  predicate CharsWithin(text: string, chars: set<char>)
  {
    forall p :: 0 <= p < |text| ==> text[p] in chars
  }

  /** Every pair of adjacent characters of `text` is one of `pairs`. */
  predicate PairsWithin(text: string, pairs: set<(char, char)>)
  {
    forall p :: 0 <= p < |text| - 1 ==> (text[p], text[p + 1]) in pairs
  }

  /** A character of `word` that `text` never uses keeps `word` out of `text`. */
  lemma {:induction false} CharAbsent(text: string, chars: set<char>, word: string, k: nat)
    requires CharsWithin(text, chars)
    requires k < |word| && word[k] !in chars
    ensures !Contains(text, word)
  {
  }

  /** As CharAbsent, for two adjacent characters of `word`. */
  lemma {:induction false} PairAbsent(text: string, pairs: set<(char, char)>, word: string, k: nat)
    requires PairsWithin(text, pairs)
    requires k + 1 < |word| && (word[k], word[k + 1]) !in pairs
    ensures !Contains(text, word)
  {
  }

  /** A keyword occurring in `a` still occurs once more text is appended. */
  lemma {:induction false} ContainsExtend(a: string, b: string, w: string)
    requires Contains(a, w)
    ensures Contains(a + b, w)
  {
    var i :| 0 <= i && OccursAt(a, w, i);
    assert (a + b)[i..i + |w|] == a[i..i + |w|];
    assert OccursAt(a + b, w, i);
  }

  /**
   * Empirical answers take priority over everything: once a description is
   * classified Empirical, no further text can change that answer.
   */
  lemma EmpiricalIsSticky(a: string, b: string)
    requires Classify(a) == Empirical
    ensures Classify(a + b) == Empirical
  {
    var w :| w in EmpiricalKeywords && Contains(a, w);
    ContainsExtend(a, b, w);
  }

  /** "Unknown" means no keyword of any of the three lists occurs. */
  lemma UnknownIffNoKeyword(text: string)
    ensures Classify(text) == Unknown <==>
      !Mentions(text, EmpiricalKeywords + ClassicalKeywords + SubjectiveKeywords)
  {
  }

  /** Lower-casing twice is lower-casing once: an already lower-cased description is left as it is. */
  lemma ClassifyIgnoresCase(description: string)
    ensures Lower(Lower(description)) == Lower(description)
  {
  }

  // The descriptions classified by the source's own test lines, lower-cased.
  const CoinText := "based on 1000 coin toss observations"
  const CardText := "all cards equally likely to be drawn"
  const WeatherText := "i feel it might rain today"

  const CardChars: set<char> :=
    {' ', 'a', 'b', 'c', 'd', 'e', 'i', 'k', 'l', 'n', 'o', 'q', 'r', 's', 't', 'u', 'w', 'y'}
  const CardPairs: set<(char, char)> :=
    {(' ', 'b'), (' ', 'c'), (' ', 'd'), (' ', 'e'), (' ', 'l'), (' ', 't'), ('a', 'l'), ('a', 'r'),
     ('a', 'w'), ('b', 'e'), ('c', 'a'), ('d', 'r'), ('d', 's'), ('e', ' '), ('e', 'l'), ('e', 'q'),
     ('i', 'k'), ('k', 'e'), ('l', ' '), ('l', 'i'), ('l', 'l'), ('l', 'y'), ('o', ' '), ('q', 'u'),
     ('r', 'a'), ('r', 'd'), ('s', ' '), ('t', 'o'), ('u', 'a'), ('w', 'n'), ('y', ' ')}
  const WeatherChars: set<char> :=
    {' ', 'a', 'd', 'e', 'f', 'g', 'h', 'i', 'l', 'm', 'n', 'o', 'r', 't', 'y'}
  const WeatherPairs: set<(char, char)> :=
    {(' ', 'f'), (' ', 'i'), (' ', 'm'), (' ', 'r'), (' ', 't'), ('a', 'i'), ('a', 'y'), ('d', 'a'),
     ('e', 'e'), ('e', 'l'), ('f', 'e'), ('g', 'h'), ('h', 't'), ('i', ' '), ('i', 'g'), ('i', 'n'),
     ('i', 't'), ('l', ' '), ('m', 'i'), ('n', ' '), ('o', 'd'), ('r', 'a'), ('t', ' '), ('t', 'o')}
  const EquallyLikelyChars: set<char> := {' ', 'a', 'e', 'i', 'k', 'l', 'q', 'u', 'y'}

  lemma CardTextChars()
    ensures CharsWithin(CardText, CardChars)
  {
  }

  lemma CardTextPairs()
    ensures PairsWithin(CardText, CardPairs)
  {
  }

  lemma WeatherTextChars()
    ensures CharsWithin(WeatherText, WeatherChars)
  {
  }

  lemma WeatherTextPairs()
    ensures PairsWithin(WeatherText, WeatherPairs)
  {
  }

  lemma NoEmpiricalKeywordInCardText(d: string)
    requires CharsWithin(d, CardChars) && PairsWithin(d, CardPairs)
    ensures !Mentions(d, EmpiricalKeywords)
  {
    CharAbsent(d, CardChars, "observed", 5);
    PairAbsent(d, CardPairs, "data", 0);
    CharAbsent(d, CardChars, "survey", 3);
    CharAbsent(d, CardChars, "experiment", 1);
    PairAbsent(d, CardPairs, "collected", 0);
    PairAbsent(d, CardPairs, "records", 0);
    PairAbsent(d, CardPairs, "study", 0);
    PairAbsent(d, CardPairs, "trial", 0);
    PairAbsent(d, CardPairs, "toss", 1);
    PairAbsent(d, CardPairs, "roll", 0);
    CharAbsent(d, CardChars, "measure", 0);
    PairAbsent(d, CardPairs, "recorded", 0);
    PairAbsent(d, CardPairs, "based on", 0);
    CharAbsent(d, CardChars, "observations", 5);
  }

  lemma NoEmpiricalKeywordInWeatherText(d: string)
    requires CharsWithin(d, WeatherChars) && PairsWithin(d, WeatherPairs)
    ensures !Mentions(d, EmpiricalKeywords)
  {
    CharAbsent(d, WeatherChars, "observed", 1);
    PairAbsent(d, WeatherPairs, "data", 1);
    CharAbsent(d, WeatherChars, "survey", 0);
    CharAbsent(d, WeatherChars, "experiment", 1);
    CharAbsent(d, WeatherChars, "collected", 0);
    CharAbsent(d, WeatherChars, "records", 2);
    CharAbsent(d, WeatherChars, "study", 0);
    PairAbsent(d, WeatherPairs, "trial", 0);
    CharAbsent(d, WeatherChars, "toss", 2);
    PairAbsent(d, WeatherPairs, "roll", 0);
    CharAbsent(d, WeatherChars, "measure", 3);
    CharAbsent(d, WeatherChars, "recorded", 2);
    CharAbsent(d, WeatherChars, "based on", 0);
    CharAbsent(d, WeatherChars, "observations", 1);
  }

  lemma NoClassicalKeywordInWeatherText(d: string)
    requires CharsWithin(d, WeatherChars) && PairsWithin(d, WeatherPairs)
    ensures !Mentions(d, ClassicalKeywords)
  {
    CharAbsent(d, WeatherChars, "equally likely", 1);
    PairAbsent(d, WeatherPairs, "fair", 0);
    CharAbsent(d, WeatherChars, "balanced", 0);
    PairAbsent(d, WeatherPairs, "random", 1);
    CharAbsent(d, WeatherChars, "theoretical", 8);
    CharAbsent(d, WeatherChars, "all outcomes", 5);
    CharAbsent(d, WeatherChars, "all cards", 4);
    CharAbsent(d, WeatherChars, "all faces", 6);
    CharAbsent(d, WeatherChars, "symmetrical", 0);
  }

  lemma NoEmpiricalKeywordInEquallyLikely(d: string)
    requires CharsWithin(d, EquallyLikelyChars)
    ensures !Mentions(d, EmpiricalKeywords)
  {
    CharAbsent(d, EquallyLikelyChars, "observed", 0);
    CharAbsent(d, EquallyLikelyChars, "data", 0);
    CharAbsent(d, EquallyLikelyChars, "survey", 0);
    CharAbsent(d, EquallyLikelyChars, "experiment", 1);
    CharAbsent(d, EquallyLikelyChars, "collected", 0);
    CharAbsent(d, EquallyLikelyChars, "records", 0);
    CharAbsent(d, EquallyLikelyChars, "study", 0);
    CharAbsent(d, EquallyLikelyChars, "trial", 0);
    CharAbsent(d, EquallyLikelyChars, "toss", 0);
    CharAbsent(d, EquallyLikelyChars, "roll", 0);
    CharAbsent(d, EquallyLikelyChars, "measure", 0);
    CharAbsent(d, EquallyLikelyChars, "recorded", 0);
    CharAbsent(d, EquallyLikelyChars, "based on", 0);
    CharAbsent(d, EquallyLikelyChars, "observations", 0);
  }

  /**
   * "equally likely" is Classical although it also contains the subjective
   * keyword "likely": the classical list is consulted first.
   */
  lemma EquallyLikelyIsClassical()
    ensures Mentions("equally likely", SubjectiveKeywords)
    ensures Classify("equally likely") == Classical
  {
    var d := "equally likely";
    assert d[8..14] == SubjectiveKeywords[8];
    assert OccursAt(d, SubjectiveKeywords[8], 8);
    assert Contains(d, SubjectiveKeywords[8]);
    assert OccursAt(d, ClassicalKeywords[0], 0);
    assert Contains(d, ClassicalKeywords[0]);
    assert CharsWithin(d, EquallyLikelyChars);
    NoEmpiricalKeywordInEquallyLikely(d);
  }

  lemma LowerCoinDescription()
    ensures Lower("Based on 1000 coin toss observations") == CoinText
  {
  }

  lemma LowerCardDescription()
    ensures Lower("All cards equally likely to be drawn") == CardText
  {
  }

  lemma LowerWeatherDescription()
    ensures Lower("I feel it might rain today") == WeatherText
  {
  }

  /** The lower-cased coin description opens with the empirical keyword "based on". */
  lemma CoinTextIsEmpirical()
    ensures Classify(CoinText) == Empirical
  {
    assert CoinText[0..8] == EmpiricalKeywords[12];
    assert OccursAt(CoinText, EmpiricalKeywords[12], 0);
    assert Contains(CoinText, EmpiricalKeywords[12]);
  }

  /** The lower-cased card description has no empirical keyword and opens with "all cards". */
  lemma CardTextIsClassical()
    ensures Classify(CardText) == Classical
  {
    CardTextChars();
    CardTextPairs();
    NoEmpiricalKeywordInCardText(CardText);
    assert CardText[0..9] == ClassicalKeywords[6];
    assert OccursAt(CardText, ClassicalKeywords[6], 0);
    assert Contains(CardText, ClassicalKeywords[6]);
  }

  /** The lower-cased weather description has no empirical or classical keyword, and has "feel". */
  lemma WeatherTextIsSubjective()
    ensures Classify(WeatherText) == Subjective
  {
    WeatherTextChars();
    WeatherTextPairs();
    NoEmpiricalKeywordInWeatherText(WeatherText);
    NoClassicalKeywordInWeatherText(WeatherText);
    assert WeatherText[2] == 'f' && WeatherText[3] == 'e' && WeatherText[4] == 'e' && WeatherText[5] == 'l';
    assert WeatherText[2..6] == SubjectiveKeywords[0];
    assert OccursAt(WeatherText, SubjectiveKeywords[0], 2);
    assert Contains(WeatherText, SubjectiveKeywords[0]);
  }

  /** The first test description of the source is Empirical. */
  lemma CoinTossDescriptionIsEmpirical()
    ensures Classify(Lower("Based on 1000 coin toss observations")) == Empirical
  {
    LowerCoinDescription();
    CoinTextIsEmpirical();
  }

  /** The second test description is Classical. */
  lemma CardDescriptionIsClassical()
    ensures Classify(Lower("All cards equally likely to be drawn")) == Classical
  {
    LowerCardDescription();
    CardTextIsClassical();
  }

  /** The third test description is Subjective. */
  lemma WeatherFeelingIsSubjective()
    ensures Classify(Lower("I feel it might rain today")) == Subjective
  {
    LowerWeatherDescription();
    WeatherTextIsSubjective();
  }
}
