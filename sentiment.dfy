/**
 * The labeler of src/sentiment.js. The lexicon analysis that produces the
 * word-count-normalised ("comparative") score is a foreign library, so the score is
 * an input here; only the three-way threshold on it is modelled.
 */
module Sentiment {

  datatype Label = Positive | Negative | Neutral

  /** The event label: strictly above 0.05 is positive, strictly below -0.05 is
      negative, the closed band in between is neutral. */
  function Classify(score: real): (l: Label)
    ensures l == Positive <==> score > 0.05
    ensures l == Negative <==> score < -0.05
    ensures l == Neutral <==> -0.05 <= score <= 0.05
  {
    if score > 0.05 then Positive
    else if score < -0.05 then Negative
    else Neutral
  }

  datatype Analysis = Analysis(score: real, polarity: Label)

  /** `analyzeSentiment`: the score is the analyzer's comparative value unchanged, and
      the label is never set independently of it. */
  function AnalyzeSentiment(comparative: real): (a: Analysis)
    ensures a.score == comparative
    ensures a.polarity == Positive <==> comparative > 0.05
    ensures a.polarity == Negative <==> comparative < -0.05
    ensures a.polarity == Neutral <==> -0.05 <= comparative <= 0.05
  {
    Analysis(comparative, Classify(comparative))
  }

  /** The order of labels: negative below neutral below positive. */
  function Rank(l: Label): (n: nat)
    ensures n <= 2
  {
    match l
    case Negative => 0
    case Neutral => 1
    case Positive => 2
  }

  /** A higher score never gets a lower label. */
  lemma ClassifyMonotone(x: real, y: real)
    requires x <= y
    ensures Rank(Classify(x)) <= Rank(Classify(y))
  {
  }
}
