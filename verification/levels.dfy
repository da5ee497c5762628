/**
 * The two confidence-level mappings: the ML engine's (0.85/0.75/0.65/0.55) and
 * the wedding engine's (0.9/0.8/0.7/0.6). They are kept as separate functions.
 */
module ConfidenceLevels {

  datatype Level = VeryLow | Low | Medium | High | VeryHigh

  /** Position of a level on the scale, 0 (Very Low) to 4 (Very High). */
  function Rank(l: Level): nat {
    match l
    case VeryLow => 0
    case Low => 1
    case Medium => 2
    case High => 3
    case VeryHigh => 4
  }

  function MlLevel(confidence: real): (l: Level)
    ensures l == VeryHigh <==> confidence >= 0.85
    ensures l == VeryLow <==> confidence < 0.55
  {
    if confidence >= 0.85 then VeryHigh
    else if confidence >= 0.75 then High
    else if confidence >= 0.65 then Medium
    else if confidence >= 0.55 then Low
    else VeryLow
  }

  function WeddingLevel(confidence: real): (l: Level)
    ensures l == VeryHigh <==> confidence >= 0.9
    ensures l == VeryLow <==> confidence < 0.6
  {
    if confidence >= 0.9 then VeryHigh
    else if confidence >= 0.8 then High
    else if confidence >= 0.7 then Medium
    else if confidence >= 0.6 then Low
    else VeryLow
  }

  /** The ML mapping's level is the number of its thresholds the confidence reaches. */
  lemma MlLevelCountsThresholds(c: real)
    ensures Rank(MlLevel(c)) ==
      (if c >= 0.85 then 1 else 0) + (if c >= 0.75 then 1 else 0) +
      (if c >= 0.65 then 1 else 0) + (if c >= 0.55 then 1 else 0)
  {
  }

  /** A higher confidence never gets a lower level, in either mapping. */
  lemma LevelsMonotone(c1: real, c2: real)
    requires c1 <= c2
    ensures Rank(MlLevel(c1)) <= Rank(MlLevel(c2))
    ensures Rank(WeddingLevel(c1)) <= Rank(WeddingLevel(c2))
  {
  }

  /**
   * The wedding thresholds are the ML thresholds shifted up by 0.05, so the
   * wedding mapping is never more generous than the ML one.
   */
  lemma WeddingLevelIsShiftedMlLevel(c: real)
    ensures WeddingLevel(c + 0.05) == MlLevel(c)
    ensures Rank(WeddingLevel(c)) <= Rank(MlLevel(c))
    ensures WeddingLevel(c) != MlLevel(c) <==>
      (0.55 <= c < 0.6 || 0.65 <= c < 0.7 || 0.75 <= c < 0.8 || 0.85 <= c < 0.9)
  {
  }
}
