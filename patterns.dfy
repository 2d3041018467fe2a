/**
 * Regular expressions whose matching is not modelled. A pattern is kept as
 * its source text and flags; how many matches a global search finds in a
 * text is a parameter of the model (a `Matcher`), so every property proved
 * with it holds for any regular-expression engine.
 */
module Patterns {
  datatype Regex = Regex(source: string, flags: string)

  /** The number of matches `text.match(r)` returns for a global `r` (0 for `null`). */
  type Matcher = (Regex, string) -> nat

  /** The same pattern with the `g` flag added when it is missing (`new RegExp(source, flags)`). */
  function Global(r: Regex): (g: Regex)
    ensures g.source == r.source && 'g' in g.flags
    ensures forall c :: c in r.flags ==> c in g.flags
  {
    if 'g' in r.flags then r else Regex(r.source, r.flags + "g")
  }

  /** `countPatternMatches(text, r)`: no matches in an empty text, else the matches of a global search. */
  function CountPatternMatches(m: Matcher, text: string, r: Regex): (n: nat)
    ensures n > 0 <==> text != "" && Test(m, r, text)
  {
    if text == "" then 0 else m(Global(r), text)
  }

  /** `r.test(text)`: some match exists. */
  predicate Test(m: Matcher, r: Regex, text: string) {
    m(Global(r), text) > 0
  }

  /** `scorePatterns(text, patterns)`: the matches of all patterns added up. */
  function ScorePatterns(m: Matcher, text: string, patterns: seq<Regex>): (score: nat)
    ensures forall i :: 0 <= i < |patterns| ==> CountPatternMatches(m, text, patterns[i]) <= score
  {
    if patterns == [] then 0
    else ScorePatterns(m, text, patterns[..|patterns| - 1]) + CountPatternMatches(m, text, patterns[|patterns| - 1])
  }

  /** An empty text scores 0 against any patterns. */
  lemma {:induction false} EmptyTextScoresZero(m: Matcher, patterns: seq<Regex>)
    ensures ScorePatterns(m, "", patterns) == 0
  {
    if patterns != [] {
      EmptyTextScoresZero(m, patterns[..|patterns| - 1]);
    }
  }

  /** The score is 0 exactly when no pattern matches. */
  lemma {:induction false} ScoreZeroIffNoMatch(m: Matcher, text: string, patterns: seq<Regex>)
    ensures ScorePatterns(m, text, patterns) == 0 <==>
      forall i :: 0 <= i < |patterns| ==> CountPatternMatches(m, text, patterns[i]) == 0
  {
    if patterns != [] {
      var init := patterns[..|patterns| - 1];
      ScoreZeroIffNoMatch(m, text, init);
      assert forall i :: 0 <= i < |init| ==> init[i] == patterns[i];
    }
  }

  /** Scoring against two lists of patterns is scoring against each list in turn. */
  lemma {:induction false} ScorePatternsAppend(m: Matcher, text: string, a: seq<Regex>, b: seq<Regex>)
    ensures ScorePatterns(m, text, a + b) == ScorePatterns(m, text, a) + ScorePatterns(m, text, b)
    decreases |b|
  {
    if b == [] {
      assert a + b == a;
    } else {
      var b' := b[..|b| - 1];
      assert (a + b)[..|a + b| - 1] == a + b';
      ScorePatternsAppend(m, text, a, b');
    }
  }
}
