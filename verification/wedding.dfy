/**
 * The wedding individual engine: role and style tables, the fit shift, the
 * base recommendation (ladder, wedding confidence, wedding classifier and
 * alterations) and the wedding enhancement merge.
 */
module Wedding {
  import opened Wrappers
  import Anthropometry
  import SizeLadder
  import opened ConfidenceLevels
  import opened Alterations

  datatype Role =
    | Groom | Groomsman | BestMan | FatherOfBride | FatherOfGroom | Usher | RingBearer | Guests

  datatype Style =
    | Formal | SemiFormal | Casual | BlackTie | Beach | Outdoor | Vintage | Modern

  /** A wedding party member as entered; height and weight are in `unit`. */
  datatype Member = Member(
    id: string, name: string, role: Role, height: real, weight: real,
    fitPreference: string, unit: string,
    age: Option<int>, bodyType: Option<string>, specialRequirements: seq<string>)

  /** Wedding details; the date is a day number. */
  datatype Details = Details(
    date: int, style: Style, season: string, venueType: string, formalityLevel: string,
    colorScheme: seq<string>, specialRequests: seq<string>)

  /** One row of the role table. */
  datatype RoleConfig = RoleConfig(multiplier: real, boost: real, flexibility: real)

  /** One row of the style table. */
  datatype StyleImpact = StyleImpact(fitShift: string, boost: real)

  /** The role table; the ring bearer has no row, so looking it up fails. */
  function RoleAdjustment(role: Role): (c: Option<RoleConfig>)
    ensures c.None? <==> role == RingBearer
    ensures c.Some? ==> 0.98 <= c.value.multiplier <= 1.02
    ensures c.Some? ==> 0.0 <= c.value.boost <= 0.1
    ensures c.Some? ==> 0.9 <= c.value.flexibility <= 1.1
    ensures c.Some? ==> (c.value.boost == 0.1 <==> role == Groom)
  {
    match role
    case Groom => Some(RoleConfig(1.0, 0.1, 0.9))
    case BestMan => Some(RoleConfig(1.0, 0.05, 0.95))
    case Groomsman => Some(RoleConfig(0.98, 0.0, 1.0))
    case FatherOfBride => Some(RoleConfig(1.02, 0.05, 1.1))
    case FatherOfGroom => Some(RoleConfig(1.02, 0.05, 1.1))
    case Usher => Some(RoleConfig(0.99, 0.0, 1.0))
    case Guests => Some(RoleConfig(1.0, 0.0, 1.0))
    case RingBearer => None
  }

  /** The style table; semi-formal, vintage and modern have no row. */
  function StyleImpactOf(style: Style): (s: Option<StyleImpact>)
    ensures s.None? <==> style == SemiFormal || style == Vintage || style == Modern
    ensures s.Some? ==> s.value.fitShift in {"regular", "slim", "relaxed"}
    ensures s.Some? ==> 0.0 <= s.value.boost <= 0.1
  {
    match style
    case Formal => Some(StyleImpact("regular", 0.05))
    case BlackTie => Some(StyleImpact("slim", 0.1))
    case Casual => Some(StyleImpact("relaxed", 0.0))
    case Beach => Some(StyleImpact("relaxed", 0.05))
    case Outdoor => Some(StyleImpact("relaxed", 0.0))
    case _ => None
  }

  /**
   * The fit shift. `draw` stands for the uniform draw in [0, 1) the Python code takes
   * from its random generator: the style bias is taken when the draw falls
   * below |1 - flexibility|.
   */
  function AdjustFit(original: string, bias: string, flexibility: real, draw: real): (fit: string)
    ensures fit == original || fit == bias
    ensures original == bias ==> fit == original
    ensures fit != original <==> original != bias && draw < Anthropometry.Abs(1.0 - flexibility)
  {
    if original == bias then original
    else if draw < Anthropometry.Abs(1.0 - flexibility) then bias
    else original
  }

  /**
   * With flexibility exactly 1.0 (groomsman, usher, guests) no draw in [0, 1)
   * changes the fit; for every other role some draw does whenever the bias
   * differs from the preference.
   */
  lemma FitShiftByRole(role: Role, original: string, bias: string)
    requires role != RingBearer
    ensures var flex := RoleAdjustment(role).value.flexibility;
      && (flex == 1.0 ==> forall draw :: 0.0 <= draw < 1.0 ==> AdjustFit(original, bias, flex, draw) == original)
      && (flex != 1.0 && original != bias ==> AdjustFit(original, bias, flex, 0.0) == bias)
      && (flex == 1.0 <==> role == Groomsman || role == Usher || role == Guests)
  {
  }

  /**
   * Unit handling of the base recommendation: "metric" passes through and every
   * other unit string is converted as imperial.
   */
  function BaseMetric(height: real, weight: real, unit: string): (m: Anthropometry.Metric)
    ensures unit == "metric" ==> m == Anthropometry.Metric(height, weight)
    ensures unit != "metric" ==>
      m.heightCm == height * Anthropometry.InchToCm && m.weightKg == weight * Anthropometry.PoundToKg
  {
    if unit == "metric" then Anthropometry.Metric(height, weight)
    else Anthropometry.Metric(height * Anthropometry.InchToCm, weight * Anthropometry.PoundToKg)
  }

  /**
   * The wedding engine and the validator disagree only on unit strings that are
   * neither "metric" nor "imperial": the validator passes them through, the
   * wedding engine converts them.
   */
  lemma UnitHandlingDiffers(height: real, weight: real, unit: string)
    requires height != 0.0
    ensures BaseMetric(height, weight, unit) != Anthropometry.ToMetric(height, weight, unit) <==>
      unit != "metric" && unit != "imperial"
  {
    if unit != "metric" && unit != "imperial" {
      assert BaseMetric(height, weight, unit).heightCm == height * 2.54;
      assert Anthropometry.ToMetric(height, weight, unit).heightCm == height;
    }
  }

  /** The wedding confidence heuristic. */
  function WeddingConfidence(heightCm: real, weightKg: real, fit: string): (c: real)
    ensures 0.75 <= c <= 1.0
    ensures c == 1.0 <==> Typical(heightCm, weightKg) && fit == "regular"
    ensures Challenging(heightCm, weightKg) ==> c <= 0.8
    ensures Typical(heightCm, weightKg) ==> c >= 0.95
  {
    var adjusted :=
      if Typical(heightCm, weightKg) then 0.95
      else if Challenging(heightCm, weightKg) then 0.75
      else 0.85;
    var withFit := if fit == "regular" then adjusted + 0.05 else adjusted;
    if withFit < 1.0 then withFit else 1.0
  }

  /** "Very typical wedding measurements": 170-190 cm and 65-95 kg. */
  predicate Typical(heightCm: real, weightKg: real) {
    170.0 <= heightCm <= 190.0 && 65.0 <= weightKg <= 95.0
  }

  /** "Challenging measurements": below 160 or above 200 cm, or below 50 or above 120 kg. */
  predicate Challenging(heightCm: real, weightKg: real) {
    heightCm < 160.0 || heightCm > 200.0 || weightKg < 50.0 || weightKg > 120.0
  }

  /**
   * The level the wedding mapping gives the heuristic: Very High for typical
   * measurements or a regular fit with ordinary ones, Medium for challenging
   * measurements without a regular fit, High otherwise; never Low or Very Low.
   */
  lemma WeddingConfidenceLevel(heightCm: real, weightKg: real, fit: string)
    ensures var l := WeddingLevel(WeddingConfidence(heightCm, weightKg, fit));
      && (l == VeryHigh <==>
            Typical(heightCm, weightKg) || (!Challenging(heightCm, weightKg) && fit == "regular"))
      && (l == Medium <==> Challenging(heightCm, weightKg) && fit != "regular")
      && Rank(l) >= 2
  {
    assert Typical(heightCm, weightKg) ==> !Challenging(heightCm, weightKg);
  }

  /** The wedding classifier: the ML one without the Overweight branch. */
  function WeddingBodyType(heightCm: real, weightKg: real): (t: Anthropometry.BodyType)
    requires heightCm != 0.0
    ensures t != Anthropometry.Overweight
  {
    var bmi := Anthropometry.Bmi(heightCm, weightKg);
    var ratio := Anthropometry.HeightWeightRatio(heightCm, weightKg);
    if bmi < 18.5 then Anthropometry.Slim
    else if bmi > 30.0 then Anthropometry.Broad
    else if ratio > 1.1 then Anthropometry.Athletic
    else if ratio < 0.85 then Anthropometry.Slender
    else Anthropometry.Regular
  }

  /**
   * The two classifiers agree except where the ML one says Overweight; there the
   * wedding one says Regular.
   */
  lemma ClassifiersAgreeExceptOverweight(heightCm: real, weightKg: real)
    requires heightCm != 0.0
    ensures var ml := Anthropometry.ClassifyBodyType(heightCm, weightKg, Anthropometry.Bmi(heightCm, weightKg));
      var w := WeddingBodyType(heightCm, weightKg);
      && (ml != Anthropometry.Overweight ==> w == ml)
      && (ml == Anthropometry.Overweight ==> w == Anthropometry.Regular)
  {
  }

  /** As in the ML classifier, realistic heights reach only Slim, Broad and Athletic. */
  lemma WeddingOnlyThreeBodyTypesReachable(heightCm: real, weightKg: real)
    requires heightCm >= 6.0
    ensures var t := WeddingBodyType(heightCm, weightKg);
      t == Anthropometry.Slim || t == Anthropometry.Broad || t == Anthropometry.Athletic
  {
    Anthropometry.OnlyThreeBodyTypesReachable(heightCm, weightKg);
    ClassifiersAgreeExceptOverweight(heightCm, weightKg);
  }

  /** The body-type block of the wedding alteration rules. */
  function BodyAlterations(t: Anthropometry.BodyType): (alts: seq<Alteration>)
    ensures |alts| <= 2
    ensures (ChestRoomOptimization in alts) <==> t == Anthropometry.Athletic
    ensures (WaistAccommodation in alts) <==> t == Anthropometry.Broad
    ensures (TailoredFit in alts) <==> t == Anthropometry.Slim
    ensures forall x :: x in alts ==> x in {ShoulderWidthAdjustment, ChestRoomOptimization,
      WaistAccommodation, ComfortableMovement, TailoredFit, ProfessionalAppearance}
  {
    match t
    case Athletic => [ShoulderWidthAdjustment, ChestRoomOptimization]
    case Broad => [WaistAccommodation, ComfortableMovement]
    case Slim => [TailoredFit, ProfessionalAppearance]
    case _ => []
  }

  /** The fit tag of the wedding alteration rules. */
  function FitAlterations(fit: string): (alts: seq<Alteration>)
    ensures (SlimFitOptimization in alts) <==> fit == "slim"
    ensures (RelaxedFitComfort in alts) <==> fit == "relaxed"
    ensures forall x :: x in alts ==> x in {SlimFitOptimization, RelaxedFitComfort}
    ensures |alts| <= 1
  {
    if fit == "slim" then [SlimFitOptimization]
    else if fit == "relaxed" then [RelaxedFitComfort]
    else []
  }

  /** The size tag of the wedding alteration rules, from the numeric size. */
  function SizeAlterations(numeric: int): (alts: seq<Alteration>)
    ensures (PetiteSizingAccommodations in alts) <==> numeric < 40
    ensures (PlusSizeAccommodations in alts) <==> numeric > 50
    ensures forall x :: x in alts ==> x in {PetiteSizingAccommodations, PlusSizeAccommodations}
    ensures |alts| <= 1
  {
    if numeric < 40 then [PetiteSizingAccommodations]
    else if numeric > 50 then [PlusSizeAccommodations]
    else []
  }

  /**
   * The wedding alteration rules: body-type block, fit tag, size tag, the size
   * read back from the two-digit prefix of its text.
   */
  function WeddingAlterations(heightCm: real, weightKg: real, fit: string, size: SizeLadder.SizeCode)
    : (alts: seq<Alteration>)
    requires heightCm != 0.0
    requires 10 <= size.base <= 99
    ensures |alts| <= 4
    ensures (ChestRoomOptimization in alts) <==> WeddingBodyType(heightCm, weightKg) == Anthropometry.Athletic
    ensures (WaistAccommodation in alts) <==> WeddingBodyType(heightCm, weightKg) == Anthropometry.Broad
    ensures (TailoredFit in alts) <==> WeddingBodyType(heightCm, weightKg) == Anthropometry.Slim
    ensures (SlimFitOptimization in alts) <==> fit == "slim"
    ensures (RelaxedFitComfort in alts) <==> fit == "relaxed"
    ensures (PetiteSizingAccommodations in alts) <==> size.base < 40
    ensures (PlusSizeAccommodations in alts) <==> size.base > 50
  {
    var body := BodyAlterations(WeddingBodyType(heightCm, weightKg));
    var byFit := FitAlterations(fit);
    SizeLadder.NumericPrefixRoundTrip(size);
    var bySize := SizeAlterations(SizeLadder.NumericPrefix(SizeLadder.SizeText(size)).value);
    assert forall x :: x in body + byFit + bySize <==> x in body || x in byFit || x in bySize;
    body + byFit + bySize
  }

  /** The output of the base recommendation. */
  datatype BaseRec = BaseRec(
    size: SizeLadder.SizeCode, confidence: real, level: Level,
    bodyType: Anthropometry.BodyType, alterations: seq<Alteration>,
    heightCm: real, weightKg: real)

  /** Base recommendation: ladder size with the 'L' override, confidence, level, classifier, alterations. */
  function BaseRecommendation(height: real, weight: real, fit: string, unit: string): (r: BaseRec)
    requires BaseMetric(height, weight, unit).heightCm != 0.0
    ensures r.heightCm == BaseMetric(height, weight, unit).heightCm
    ensures r.weightKg == BaseMetric(height, weight, unit).weightKg
    ensures r.size == SizeLadder.LadderSize(fit, r.heightCm, r.weightKg)
    ensures r.confidence == WeddingConfidence(r.heightCm, r.weightKg, fit)
    ensures 0.75 <= r.confidence <= 1.0
    ensures r.level == WeddingLevel(r.confidence)
    ensures r.bodyType == WeddingBodyType(r.heightCm, r.weightKg)
    ensures r.alterations == WeddingAlterations(r.heightCm, r.weightKg, fit, r.size)
    ensures PlusSizeAccommodations !in r.alterations
    ensures (PetiteSizingAccommodations in r.alterations) <==> r.size.base == 38
  {
    var m := BaseMetric(height, weight, unit);
    var size := SizeLadder.LadderSize(fit, m.heightCm, m.weightKg);
    var confidence := WeddingConfidence(m.heightCm, m.weightKg, fit);
    BaseRec(size, confidence, WeddingLevel(confidence), WeddingBodyType(m.heightCm, m.weightKg),
            WeddingAlterations(m.heightCm, m.weightKg, fit, size), m.heightCm, m.weightKg)
  }

  /** The role's wedding tags. */
  function RoleAlterations(role: Role): (alts: seq<Alteration>)
    ensures |alts| <= 3
    ensures (WeddingPhotoOptimization in alts) <==> role == Groom
    ensures (SpeechComfortAdjustment in alts) <==> role == BestMan
    ensures (ExtendedComfortForLongCeremony in alts) <==> role == FatherOfBride || role == FatherOfGroom
    ensures alts == [] <==> role !in {Groom, BestMan, FatherOfBride, FatherOfGroom}
    ensures forall x :: x in alts ==> x in {WeddingPhotoOptimization, ComfortableMovementForDancing,
      VestingCompatibility, SpeechComfortAdjustment, PhotoCoordinationWithGroom,
      ExtendedComfortForLongCeremony, EasySittingAdjustment}
  {
    match role
    case Groom => [WeddingPhotoOptimization, ComfortableMovementForDancing, VestingCompatibility]
    case BestMan => [SpeechComfortAdjustment, PhotoCoordinationWithGroom]
    case FatherOfBride => [ExtendedComfortForLongCeremony, EasySittingAdjustment]
    case FatherOfGroom => [ExtendedComfortForLongCeremony, EasySittingAdjustment]
    case _ => []
  }

  /** The style's wedding tags. */
  function StyleAlterations(style: Style): (alts: seq<Alteration>)
    ensures |alts| <= 2
    ensures (FormalOccasionEnhancements in alts) <==> style == Formal
    ensures (BlackTieAppropriateFitting in alts) <==> style == BlackTie
    ensures (BreathableFabricAdjustments in alts) <==> style == Beach
    ensures alts == [] <==> style !in {Formal, BlackTie, Beach}
    ensures forall x :: x in alts ==> x in {FormalOccasionEnhancements, BlackTieAppropriateFitting,
      BowTieCompatibility, BreathableFabricAdjustments}
  {
    match style
    case Formal => [FormalOccasionEnhancements]
    case BlackTie => [BlackTieAppropriateFitting, BowTieCompatibility]
    case Beach => [BreathableFabricAdjustments]
    case _ => []
  }

  /** The tags the enhancement appends: role tags first, then style tags. */
  function WeddingSpecificAlterations(role: Role, style: Style): (alts: seq<Alteration>)
    ensures |alts| <= 5
    ensures (WeddingPhotoOptimization in alts) <==> role == Groom
    ensures (SpeechComfortAdjustment in alts) <==> role == BestMan
    ensures (ExtendedComfortForLongCeremony in alts) <==> role == FatherOfBride || role == FatherOfGroom
    ensures (FormalOccasionEnhancements in alts) <==> style == Formal
    ensures (BlackTieAppropriateFitting in alts) <==> style == BlackTie
    ensures (BreathableFabricAdjustments in alts) <==> style == Beach
    ensures PlusSizeAccommodations !in alts && PetiteSizingAccommodations !in alts
    ensures alts == [] <==>
      role !in {Groom, BestMan, FatherOfBride, FatherOfGroom} && style !in {Formal, BlackTie, Beach}
  {
    var byRole := RoleAlterations(role);
    var byStyle := StyleAlterations(style);
    assert forall x :: x in byRole + byStyle <==> x in byRole || x in byStyle;
    byRole + byStyle
  }

  /** The enhanced recommendation returned for a member. */
  datatype Recommendation = Recommendation(
    size: SizeLadder.SizeCode, confidence: real, level: Level,
    bodyType: Anthropometry.BodyType, alterations: seq<Alteration>,
    heightCm: real, weightKg: real,
    role: Role, style: Style, roleAdjustment: real, styleInfluence: string)

  datatype WeddingError = UnknownRole | ZeroHeight

  /** The style's fit bias, or the member's own preference when the style has no row. */
  function StyleBias(style: Style, preference: string): string {
    match StyleImpactOf(style)
    case Some(s) => s.fitShift
    case None => preference
  }

  /** The style's confidence boost, 0 when the style has no row. */
  function StyleBoost(style: Style): real {
    match StyleImpactOf(style)
    case Some(s) => s.boost
    case None => 0.0
  }

  /**
   * The enhancement merge: the size, body type and measurements stay, the
   * confidence gets the role and style boosts with a cap of 1.0 and its level is
   * recomputed, and the wedding-specific tags are appended.
   */
  function Enhance(base: BaseRec, role: Role, style: Style, config: RoleConfig): (r: Recommendation)
    requires 0.0 <= config.boost && 0.0 <= base.confidence <= 1.0
    ensures r.size == base.size && r.bodyType == base.bodyType
    ensures r.heightCm == base.heightCm && r.weightKg == base.weightKg
    ensures base.confidence <= r.confidence <= 1.0
    ensures r.confidence < 1.0 ==> r.confidence == base.confidence + config.boost + StyleBoost(style)
    ensures r.confidence == 1.0 <==> base.confidence + config.boost + StyleBoost(style) >= 1.0
    ensures Rank(WeddingLevel(base.confidence)) <= Rank(r.level)
    ensures r.level == WeddingLevel(r.confidence)
    ensures |r.alterations| == |base.alterations| + |WeddingSpecificAlterations(role, style)|
    ensures r.alterations[..|base.alterations|] == base.alterations
    ensures r.alterations[|base.alterations|..] == WeddingSpecificAlterations(role, style)
  {
    var boosted := base.confidence + config.boost + StyleBoost(style);
    var confidence := if boosted < 1.0 then boosted else 1.0;
    LevelsMonotone(base.confidence, confidence);
    var extra := WeddingSpecificAlterations(role, style);
    var alts := base.alterations + extra;
    assert alts[..|base.alterations|] == base.alterations;
    assert alts[|base.alterations|..] == extra;
    Recommendation(base.size, confidence, WeddingLevel(confidence), base.bodyType, alts,
                   base.heightCm, base.weightKg, role, style, config.multiplier,
                   match StyleImpactOf(style) case Some(s) => s.fitShift case None => "none")
  }

  /** The member's measurements scaled by the role multiplier, then converted. */
  function AdjustedMetric(member: Member, config: RoleConfig): Anthropometry.Metric {
    BaseMetric(member.height * config.multiplier, member.weight * config.multiplier, member.unit)
  }

  /** The fit the member ends up with: the preference, or the style's bias after a shift. */
  function RecommendedFit(member: Member, style: Style, config: RoleConfig, draw: real): (fit: string)
    ensures fit == member.fitPreference || fit == StyleBias(style, member.fitPreference)
  {
    AdjustFit(member.fitPreference, StyleBias(style, member.fitPreference), config.flexibility, draw)
  }

  /**
   * The recommendation for a member once the role row is known: scale, shift the
   * fit, size and score, then enhance. Plus sizing is never suggested.
   */
  function Recommend(member: Member, style: Style, config: RoleConfig, draw: real): (r: Recommendation)
    requires AdjustedMetric(member, config).heightCm != 0.0
    requires 0.0 <= config.boost
    ensures PlusSizeAccommodations !in r.alterations
    ensures r.role == member.role && r.style == style && r.roleAdjustment == config.multiplier
  {
    var fit := RecommendedFit(member, style, config, draw);
    var base := BaseRecommendation(member.height * config.multiplier,
                                   member.weight * config.multiplier, fit, member.unit);
    var r := Enhance(base, member.role, style, config);
    var extra := WeddingSpecificAlterations(member.role, style);
    assert r.alterations == base.alterations + extra;
    assert PlusSizeAccommodations !in base.alterations && PlusSizeAccommodations !in extra;
    r
  }

  /**
   * The recommendation's measurements are the scaled and converted ones, and its
   * size is the ladder size for them under the recommended fit.
   */
  lemma RecommendSize(member: Member, style: Style, config: RoleConfig, draw: real)
    requires AdjustedMetric(member, config).heightCm != 0.0
    requires 0.0 <= config.boost
    ensures var m := AdjustedMetric(member, config);
      var r := Recommend(member, style, config, draw);
      && r.heightCm == m.heightCm && r.weightKg == m.weightKg
      && r.size == SizeLadder.LadderSize(RecommendedFit(member, style, config, draw), m.heightCm, m.weightKg)
  {
  }

  /**
   * The recommendation's confidence is the wedding heuristic's for the adjusted
   * measurements and fit plus the role and style boosts, capped at 1.0, and its
   * level is the wedding level of that value.
   */
  lemma RecommendConfidence(member: Member, style: Style, config: RoleConfig, draw: real)
    requires AdjustedMetric(member, config).heightCm != 0.0
    requires 0.0 <= config.boost
    ensures var m := AdjustedMetric(member, config);
      var r := Recommend(member, style, config, draw);
      var heuristic := WeddingConfidence(m.heightCm, m.weightKg, RecommendedFit(member, style, config, draw));
      var boosted := heuristic + config.boost + StyleBoost(style);
      && r.confidence == (if boosted < 1.0 then boosted else 1.0)
      && heuristic <= r.confidence <= 1.0
      && r.level == WeddingLevel(r.confidence)
  {
  }

  /**
   * The role-based recommendation. The ring bearer fails (no role row), as does a
   * zero height, where the Python code divides by zero. `draw` is the fit-shift draw.
   */
  function RoleBasedRecommendation(member: Member, wedding: Details, draw: real)
    : (r: Result<Recommendation, WeddingError>)
    ensures member.role == RingBearer ==> r == Err(UnknownRole)
    ensures member.role != RingBearer ==>
      (r.Ok? <==> AdjustedMetric(member, RoleAdjustment(member.role).value).heightCm != 0.0)
    ensures r.Ok? ==> r.value.role == member.role && r.value.style == wedding.style
  {
    var lookup := RoleAdjustment(member.role);
    if lookup.None? then Err(UnknownRole)
    else if AdjustedMetric(member, lookup.value).heightCm == 0.0 then Err(ZeroHeight)
    else Ok(Recommend(member, wedding.style, lookup.value, draw))
  }

  /** Every role but the ring bearer gets a recommendation for any non-zero height. */
  lemma OnlyRingBearerOrZeroHeightFails(member: Member, wedding: Details, draw: real)
    ensures RoleBasedRecommendation(member, wedding, draw).Err? <==>
      member.role == RingBearer || member.height == 0.0
  {
    if member.role != RingBearer {
      var config := RoleAdjustment(member.role).value;
      if member.height != 0.0 {
        AdjustedHeightNonZero(member, config);
      } else {
        assert AdjustedMetric(member, config).heightCm == 0.0;
      }
    }
  }

  /** A non-zero height stays non-zero after scaling by the role multiplier and conversion. */
  lemma AdjustedHeightNonZero(member: Member, config: RoleConfig)
    requires member.height != 0.0 && config.multiplier != 0.0
    ensures AdjustedMetric(member, config).heightCm != 0.0
  {
    var h := member.height * config.multiplier;
    assert h != 0.0;
    assert h * Anthropometry.InchToCm != 0.0;
  }

  /**
   * A groom with typical measurements who keeps a regular fit at a formal wedding
   * gets full confidence and a Very High level.
   */
  lemma GroomTypicalRegularIsFullConfidence(member: Member, wedding: Details, draw: real)
    requires member.role == Groom && member.unit == "metric" && member.fitPreference == "regular"
    requires wedding.style == Formal
    requires Typical(member.height, member.weight)
    ensures var r := RoleBasedRecommendation(member, wedding, draw);
      r.Ok? && r.value.confidence == 1.0 && r.value.level == VeryHigh
  {
    var config := RoleConfig(1.0, 0.1, 0.9);
    assert RoleAdjustment(member.role) == Some(config);
    var m := AdjustedMetric(member, config);
    assert m == Anthropometry.Metric(member.height, member.weight);
    assert StyleBias(wedding.style, member.fitPreference) == "regular";
    assert RecommendedFit(member, wedding.style, config, draw) == "regular";
    assert WeddingConfidence(m.heightCm, m.weightKg, "regular") == 1.0;
    var r := Recommend(member, wedding.style, config, draw);
    RecommendConfidence(member, wedding.style, config, draw);
    assert RoleBasedRecommendation(member, wedding, draw) == Ok(r);
  }
}
