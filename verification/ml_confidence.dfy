/**
 * The ML engine's four-component confidence scorer and its alteration builder.
 * The predicted size and the model confidence come from a learned predictor that
 * is not part of this model; they are plain inputs here, as is the similarity
 * weight produced by the synthetic-customer lookup.
 */
module MlConfidence {
  import Anthropometry
  import ConfidenceLevels
  import opened Alterations

  const WeightAnthropometric: real := 0.3
  const WeightSimilarity: real := 0.25
  const WeightModel: real := 0.25
  const WeightEdgeCase: real := 0.2

  function Clip(x: real, lo: real, hi: real): (r: real)
    requires lo <= hi
    ensures lo <= r <= hi
    ensures lo <= x <= hi ==> r == x
  {
    if x < lo then lo else if x > hi then hi else x
  }

  /** BMI tier: 1.0 in [18.5, 25], 0.8 in [16, 30], 0.5 elsewhere. */
  function BmiTier(bmi: real): (t: real)
    ensures t == 1.0 || t == 0.8 || t == 0.5
  {
    if 18.5 <= bmi <= 25.0 then 1.0
    else if 16.0 <= bmi <= 30.0 then 0.8
    else 0.5
  }

  /**
   * Mean of the height-percentile closeness to the median and the BMI tier.
   * For a percentile in [0, 100] it lies in [0.25, 1], and it is 1 exactly at the
   * median height with a normal BMI.
   */
  function AnthropometricConfidence(heightPercentile: real, bmi: real): (r: real)
    ensures 0.0 <= heightPercentile <= 100.0 ==> 0.25 <= r <= 1.0
    ensures r == 1.0 <==> heightPercentile == 50.0 && 18.5 <= bmi <= 25.0
    ensures bmi < 16.0 ==> r <= 0.75
  {
    var heightConfidence := 1.0 - Anthropometry.Abs(heightPercentile - 50.0) / 50.0;
    (heightConfidence + BmiTier(bmi)) / 2.0
  }

  /**
   * Edge-case confidence: 0.8 minus a height penalty, a BMI penalty and a
   * Slim/Broad penalty, floored at 0.1. The largest total penalty is 0.6, so the
   * floor never binds and the value lies in [0.2, 0.8].
   */
  function EdgeCaseConfidence(heightCm: real, bmi: real, bodyType: Anthropometry.BodyType): (r: real)
    ensures 0.2 <= r <= 0.8
    ensures r == 0.8 <==>
      165.0 <= heightCm <= 195.0 && 20.0 <= bmi <= 28.0 &&
      bodyType != Anthropometry.Slim && bodyType != Anthropometry.Broad
    ensures (bmi < 18.5 || bmi > 30.0) ==> r <= 0.5
    ensures (heightCm < 160.0 || heightCm > 200.0) ==> r <= 0.6
  {
    var heightPenalty :=
      if heightCm < 160.0 || heightCm > 200.0 then 0.2
      else if heightCm < 165.0 || heightCm > 195.0 then 0.1
      else 0.0;
    var bmiPenalty :=
      if bmi < 18.5 || bmi > 30.0 then 0.3
      else if bmi < 20.0 || bmi > 28.0 then 0.1
      else 0.0;
    var bodyPenalty :=
      if bodyType == Anthropometry.Slim || bodyType == Anthropometry.Broad then 0.1 else 0.0;
    var base := 0.8 - heightPenalty - bmiPenalty - bodyPenalty;
    if base < 0.1 then 0.1 else base
  }

  /**
   * Weighted ensemble of the four components, clipped to [0, 1]. The similarity
   * term is capped at 1.0 first. When every component is already in [0, 1] the
   * clip changes nothing, because the weights sum to 1.
   */
  function Ensemble(anthropometric: real, similarityWeight: real, model: real, edgeCase: real): (r: real)
    ensures 0.0 <= r <= 1.0
    ensures 0.0 <= anthropometric <= 1.0 && 0.0 <= similarityWeight && 0.0 <= model <= 1.0 &&
            0.0 <= edgeCase <= 1.0 ==>
      r == WeightAnthropometric * anthropometric +
           WeightSimilarity * (if similarityWeight < 1.0 then similarityWeight else 1.0) +
           WeightModel * model + WeightEdgeCase * edgeCase
  {
    var similarity := if similarityWeight < 1.0 then similarityWeight else 1.0;
    var overall := WeightAnthropometric * anthropometric + WeightSimilarity * similarity +
                   WeightModel * model + WeightEdgeCase * edgeCase;
    Clip(overall, 0.0, 1.0)
  }

  /** Raising any component never lowers the ensemble. */
  lemma EnsembleMonotone(a1: real, a2: real, s1: real, s2: real, m1: real, m2: real, e1: real, e2: real)
    requires a1 <= a2 && s1 <= s2 && m1 <= m2 && e1 <= e2
    ensures Ensemble(a1, s1, m1, e1) <= Ensemble(a2, s2, m2, e2)
  {
  }

  /**
   * The scorer over a validator analysis. With the model confidence in [0, 1] and
   * the similarity weight in its documented [0.8, 1.5] band, the confidence lies
   * in [0.315, 0.96]: it never reaches 1.
   */
  function CalculateConfidence(analysis: Anthropometry.Analysis, modelConfidence: real,
                               similarityWeight: real): (r: real)
    ensures 0.0 <= r <= 1.0
    ensures 0.0 <= analysis.percentiles.height <= 100.0 &&
            0.0 <= modelConfidence <= 1.0 && 0.8 <= similarityWeight <= 1.5 ==>
      0.315 <= r <= 0.96
  {
    var anthropometric := AnthropometricConfidence(analysis.percentiles.height, analysis.bmi);
    var edgeCase := EdgeCaseConfidence(analysis.heightCm, analysis.bmi, analysis.bodyType);
    Ensemble(anthropometric, similarityWeight, modelConfidence, edgeCase)
  }

  function BodyBlock(bodyType: Anthropometry.BodyType): (b: seq<Alteration>)
    ensures 1 <= |b| <= 3
    ensures b[0] in {ShoulderWidthAdjustment, WaistLetOut, WaistTakeIn, MinorAdjustmentsAsNeeded}
    ensures (MinorAdjustmentsAsNeeded in b) <==>
      bodyType == Anthropometry.Regular || bodyType == Anthropometry.Overweight
    ensures (ChestLetOut in b) <==> bodyType == Anthropometry.Athletic
    ensures (WaistLetOut in b) <==> bodyType == Anthropometry.Broad
    ensures (WaistTakeIn in b) <==> bodyType == Anthropometry.Slim || bodyType == Anthropometry.Slender
    ensures TrouserLengthening !in b && SleeveLengthening !in b && TrouserShortening !in b
    ensures FitRelaxationRecommended !in b && FitTighteningPossible !in b
    ensures Occurrences(b, SleeveShortening) ==
      (if bodyType == Anthropometry.Slim || bodyType == Anthropometry.Slender then 1 else 0)
  {
    match bodyType
    case Athletic => [ShoulderWidthAdjustment, ChestLetOut, ArmholeModification]
    case Broad => [WaistLetOut, TrouserWidening, ShoulderWidthAdjustment]
    case Slim => [WaistTakeIn, SleeveShortening, ChestTakeIn]
    case Slender => [WaistTakeIn, SleeveShortening]
    case _ => [MinorAdjustmentsAsNeeded]
  }

  function HeightBlock(heightCm: real): (h: seq<Alteration>)
    ensures |h| <= 2
    ensures (TrouserLengthening in h) <==> heightCm > 200.0
    ensures (SleeveLengthening in h) <==> heightCm > 190.0
    ensures (TrouserShortening in h) <==> heightCm < 160.0
    ensures Occurrences(h, SleeveShortening) == (if heightCm < 160.0 then 1 else 0)
    ensures forall a :: a in h ==> a in {SleeveLengthening, TrouserLengthening, SleeveShortening, TrouserShortening}
    ensures ChestLetOut !in h && WaistLetOut !in h && WaistTakeIn !in h && MinorAdjustmentsAsNeeded !in h
  {
    if heightCm > 200.0 then [SleeveLengthening, TrouserLengthening]
    else if heightCm > 190.0 then [SleeveLengthening]
    else if heightCm < 160.0 then [SleeveShortening, TrouserShortening]
    else []
  }

  function FitBlock(fit: string, bmi: real): (f: seq<Alteration>)
    ensures |f| <= 1
    ensures (FitRelaxationRecommended in f) <==> fit == "slim" && bmi > 25.0
    ensures (FitTighteningPossible in f) <==> fit == "relaxed" && bmi < 22.0
    ensures forall a :: a in f ==> a in {FitRelaxationRecommended, FitTighteningPossible}
    ensures TrouserLengthening !in f && SleeveLengthening !in f && TrouserShortening !in f
    ensures ChestLetOut !in f && WaistLetOut !in f && WaistTakeIn !in f && MinorAdjustmentsAsNeeded !in f
  {
    if fit == "slim" && bmi > 25.0 then [FitRelaxationRecommended]
    else if fit == "relaxed" && bmi < 22.0 then [FitTighteningPossible]
    else []
  }

  /**
   * The ML alteration list: exactly one body-type block (Regular and Overweight
   * share "Minor_adjustments_as_needed", so the list is never empty), then the
   * height block, then the fit block. Nothing is de-duplicated.
   */
  function EnhancedAlterations(heightCm: real, fit: string, bodyType: Anthropometry.BodyType,
                               bmi: real): (alts: seq<Alteration>)
    ensures 1 <= |alts| <= 6
    ensures alts[0] in {ShoulderWidthAdjustment, WaistLetOut, WaistTakeIn, MinorAdjustmentsAsNeeded}
    ensures (MinorAdjustmentsAsNeeded in alts) <==>
      bodyType == Anthropometry.Regular || bodyType == Anthropometry.Overweight
  {
    var b := BodyBlock(bodyType);
    var h := HeightBlock(heightCm);
    var f := FitBlock(fit, bmi);
    var alts := b + h + f;
    assert alts[0] == b[0];
    alts
  }

  /** Which height and fit tags the list carries, each tied to its trigger. */
  lemma EnhancedAlterationsHeightAndFit(heightCm: real, fit: string,
                                        bodyType: Anthropometry.BodyType, bmi: real)
    ensures var alts := EnhancedAlterations(heightCm, fit, bodyType, bmi);
      && ((TrouserLengthening in alts) <==> heightCm > 200.0)
      && ((SleeveLengthening in alts) <==> heightCm > 190.0)
      && ((TrouserShortening in alts) <==> heightCm < 160.0)
      && ((FitRelaxationRecommended in alts) <==> fit == "slim" && bmi > 25.0)
      && ((FitTighteningPossible in alts) <==> fit == "relaxed" && bmi < 22.0)
  {
    var b := BodyBlock(bodyType);
    var h := HeightBlock(heightCm);
    var f := FitBlock(fit, bmi);
    assert forall x :: x in b + h + f <==> x in b || x in h || x in f;
  }

  /** Which body-type tags the list carries. */
  lemma EnhancedAlterationsBodyType(heightCm: real, fit: string,
                                    bodyType: Anthropometry.BodyType, bmi: real)
    ensures var alts := EnhancedAlterations(heightCm, fit, bodyType, bmi);
      && ((ChestLetOut in alts) <==> bodyType == Anthropometry.Athletic)
      && ((WaistLetOut in alts) <==> bodyType == Anthropometry.Broad)
      && ((WaistTakeIn in alts) <==> bodyType == Anthropometry.Slim || bodyType == Anthropometry.Slender)
  {
    var b := BodyBlock(bodyType);
    var h := HeightBlock(heightCm);
    var f := FitBlock(fit, bmi);
    assert forall x :: x in b + h + f <==> x in b || x in h || x in f;
  }

  /** Slim and Slender wearers under 160 cm get "Sleeve_shortening" twice. */
  lemma SleeveShorteningTwiceWhenShortAndSlim(heightCm: real, fit: string,
                                              bodyType: Anthropometry.BodyType, bmi: real)
    requires heightCm < 160.0
    requires bodyType == Anthropometry.Slim || bodyType == Anthropometry.Slender
    ensures Occurrences(EnhancedAlterations(heightCm, fit, bodyType, bmi), SleeveShortening) == 2
  {
    var b := BodyBlock(bodyType);
    var h := HeightBlock(heightCm);
    var f := FitBlock(fit, bmi);
    OccurrencesAppend(b + h, f, SleeveShortening);
    OccurrencesAppend(b, h, SleeveShortening);
    assert |f| == 0 || f == [f[0]];
    assert Occurrences(f, SleeveShortening) == 0;
  }
}
