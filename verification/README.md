# Wedding suit sizing: a Dafny model of the decision logic

This project models the decision logic of the suit-sizing back end.

- **Anthropometry.** The anthropometric validator of the ML-enhanced engine covers:
  - unit conversion and BMI;
  - the body-type classifier;
  - age estimation;
  - piecewise-linear percentiles;
  - validation notes.
- **ML confidence.** The ML engine's confidence scorer, its confidence-level mapping and its alteration list builder.
- **Size ladders.** The three fit ladders (slim, relaxed, regular) and the 'L' override above 200 cm.
- **Wedding engine.** This covers:
  - the role and style tables;
  - the random fit shift, with the random draw as a parameter;
  - the base recommendation;
  - the wedding confidence heuristic and its own level mapping;
  - the wedding classifier, which has no Overweight branch;
  - the wedding alteration rules;
  - the enhancement merge.
- **Group coordination.** This covers:
  - the wedding group with its coordinator;
  - the four group sub-scores and the weighted overall score;
  - the size distribution;
  - bulk grouping, savings and the priority order;
  - fitting challenges with median outliers;
  - coordination advice and timeline notes.
- **KCT orders.** This covers:
  - prices, bulk discount, totals and production days, with prices in integer cents;
  - product type and colour;
  - rush and delivery;
  - special instructions;
  - order creation;
  - next steps.
- **Minimal input.** The validator, enhancement tiers, member format and dictionary reader.
- **Railway back end.** This covers:
  - the request validator;
  - the per-client, per-minute rate limiter;
  - the cache time-to-live check;
  - the confidence notices.

The clock, the random generator and the ISO date parser are parameters. Throughout, `daysUntil` is the number of whole days until the wedding and `now` is seconds since the epoch. Python's loosely typed request values are the `Values.Value` datatype, and Python's `float(...)` is `Values.ToFloat`.

Two deliberate anomalies of the Python code are kept as written, and their consequences are proved.

1. The "height-weight ratio" is kilograms per metre, about 40 for adults. It is nevertheless compared with thresholds near 1.0. As a result:
   - only Slim, Broad and Athletic body types are reachable (`Anthropometry.OnlyThreeBodyTypesReachable`);
   - every adult lands on the top rung of the size ladder (`SizeLadder.AdultsGetTopRung`).
2. The two classifiers and the two confidence-level mappings are kept as separate functions, with lemmas stating where they agree.

Where the Python code and its documentation differ, the model follows the code:

- The rate limiter's docstring suggests that a rejected request changes nothing. In the code, a rejected call still creates the client's entry and prunes its old windows. Only the current window's count is untouched.
- `validate_input`'s range checks read the raw numbers before any unit conversion. A typical imperial height such as 69 inches is therefore rejected.
- The wedding engine converts every unit other than "metric" as imperial. The validator converts only "imperial".

## Model

| member | source | states |
|---|---|---|
| Anthropometry.ToMetric | backend/ml_enhanced_sizing_engine.py:39-45 | only the token "imperial" converts; positive inputs stay positive |
| Anthropometry.ImperialRoundTrip | backend/ml_enhanced_sizing_engine.py:40-42 | converting inches and pounds to metric and back returns the inputs exactly |
| Anthropometry.Bmi | backend/ml_enhanced_sizing_engine.py:47-49 | BMI times height in metres squared gives back the weight; positive weight gives positive BMI |
| Anthropometry.HeightWeightRatio | backend/ml_enhanced_sizing_engine.py:96 | the ratio times height in metres gives back the weight (kilograms per metre) |
| Anthropometry.RatioIsBmiTimesHeight | backend/ml_enhanced_sizing_engine.py:93-96 | the classifier's ratio equals BMI scaled by height in metres |
| Anthropometry.ClassifyBodyType | backend/ml_enhanced_sizing_engine.py:93-110 | Slim iff BMI < 18.5, Broad iff BMI > 30; Athletic only with a mid BMI and ratio above 1.1; Overweight only for BMI in [25, 30); reachability is in `Anthropometry.OnlyThreeBodyTypesReachable` |
| Anthropometry.OnlyThreeBodyTypesReachable | backend/ml_enhanced_sizing_engine.py:93-110 | from 6 cm up, Slim iff BMI < 18.5, Broad iff BMI > 30, Athletic iff 18.5 ≤ BMI ≤ 30; Slender, Overweight and Regular are unreachable |
| Anthropometry.EstimateAge | backend/ml_enhanced_sizing_engine.py:72-90 | the age lies in [18, 65], in fact in [30, 42], so the clamp never binds; the tall-and-heavy and short-and-light cases give 37 and 35 |
| Anthropometry.ScanRange | backend/ml_enhanced_sizing_engine.py:168-175 | the interpolating scan lands strictly between the segment start and 100 |
| Anthropometry.Percentile | backend/ml_enhanced_sizing_engine.py:157-178 | the result is in [0, 100]; 50 for no points; 0 iff the value is at or below every point; 100 iff it is at or above every point and above some point |
| Anthropometry.PercentileEnds | backend/ml_enhanced_sizing_engine.py:163-168 | the sorted copy's first and last elements are the minimum and maximum of the reference points |
| Anthropometry.ScanMonotone | backend/ml_enhanced_sizing_engine.py:170-176 | the interpolation is non-decreasing in the value |
| Anthropometry.PercentileMonotone | backend/ml_enhanced_sizing_engine.py:157-178 | a larger value never gets a smaller percentile |
| Anthropometry.HeightPercentile | backend/ml_enhanced_sizing_engine.py:119-128 | the height percentile against the height reference points is in [0, 100] |
| Anthropometry.WeightPercentile | backend/ml_enhanced_sizing_engine.py:125-132 | the weight percentile against the weight reference points is in [0, 100] |
| Anthropometry.BmiPercentile | backend/ml_enhanced_sizing_engine.py:135-142 | the BMI percentile against the BMI reference points is in [0, 100] |
| Anthropometry.CalculatePercentiles | backend/ml_enhanced_sizing_engine.py:113-150 | all three percentiles are in [0, 100] |
| Anthropometry.ValidationNotes | backend/ml_enhanced_sizing_engine.py:181-205 | at most three notes; each BMI, height and percentile note appears exactly when its band applies, the bands of each group exclusive |
| Anthropometry.ValidateMeasurements | backend/ml_enhanced_sizing_engine.py:36-70 | the analysis carries the converted measurements (inches×2.54, pounds×0.453592 only for "imperial"), their BMI, the age estimate (in [30, 42]), the ML classifier's body type, the three percentiles and the validation notes, all computed from the converted values |
| SizeLadder.LadderIsThresholdCount | backend/wedding_sizing_engine.py:237-278 | every ladder's base is its lowest base plus 2 per threshold the ratio has reached, an independent reading of the if-chains |
| SizeLadder.LadderBase | backend/wedding_sizing_engine.py:237-278 | the base is even and in 38–50, at least 40 for relaxed and at most 46 for slim; its threshold reading is `SizeLadder.LadderIsThresholdCount` |
| SizeLadder.SlimIsThresholdCount | backend/ml_enhanced_sizing_engine.py:271-281 | slim: 38 plus 2 per threshold reached among 0.8, 0.9, 1.0, 1.1 |
| SizeLadder.RelaxedIsThresholdCount | backend/ml_enhanced_sizing_engine.py:282-295 | relaxed: 40 plus 2 per threshold reached among 0.7 to 1.1 |
| SizeLadder.RegularIsThresholdCount | backend/ml_enhanced_sizing_engine.py:296-311 | regular (and any other fit string): 38 plus 2 per threshold reached among 0.75 to 1.25 |
| SizeLadder.CountReachedMonotone | backend/wedding_sizing_engine.py:237-278 | a larger ratio reaches at least as many thresholds |
| SizeLadder.LadderMonotone | backend/wedding_sizing_engine.py:237-278 | every ladder is non-decreasing in the ratio, even, and within its band (38–46, 40–50, 38–50) |
| SizeLadder.BoundaryGoesUp | backend/wedding_sizing_engine.py:237-278 | because the comparisons are strict, a ratio exactly on a threshold gets the size above it |
| SizeLadder.LadderSize | backend/wedding_sizing_engine.py:237-283 | the letter is 'L' iff the height exceeds 200 cm, otherwise the fit letter (185–200 cm keeps it); the base is the ladder base, even, in 38–50 |
| SizeLadder.HighRatioIsTopRung | backend/wedding_sizing_engine.py:237-278 | a ratio of at least 1.25 is on every ladder's top rung |
| SizeLadder.AdultsGetTopRung | backend/wedding_sizing_engine.py:233-278 | anyone at least 7 cm tall with BMI ≥ 18.5 gets the top rung of their ladder |
| SizeLadder.SizeText | backend/wedding_sizing_engine.py:275-283 | the size text is two digits and the letter |
| SizeLadder.NumericPrefixRoundTrip | backend/wedding_sizing_engine.py:468 | `int(size[:2])` reads back the base of every printed two-digit size |
| SizeLadder.SizeTextInjective | backend/wedding_group_coordination.py:383-386 | two sizes print alike only if they are equal, so grouping by text is grouping by size |
| ConfidenceLevels.MlLevelCountsThresholds | backend/ml_enhanced_sizing_engine.py:671-682 | the ML level's rank is the number of thresholds 0.85/0.75/0.65/0.55 reached |
| ConfidenceLevels.MlLevel | backend/ml_enhanced_sizing_engine.py:671-682 | Very High iff confidence ≥ 0.85, Very Low iff below 0.55; the full reading is `ConfidenceLevels.MlLevelCountsThresholds` |
| ConfidenceLevels.WeddingLevel | backend/wedding_sizing_engine.py:424-435 | Very High iff confidence ≥ 0.9, Very Low iff below 0.6; its relation to the ML mapping is `ConfidenceLevels.WeddingLevelIsShiftedMlLevel` |
| ConfidenceLevels.LevelsMonotone | backend/ml_enhanced_sizing_engine.py:671-682 | both mappings are monotone in the confidence |
| ConfidenceLevels.WeddingLevelIsShiftedMlLevel | backend/wedding_sizing_engine.py:424-435 | the wedding thresholds are the ML ones plus 0.05; the wedding level is never higher, and differs exactly in four 0.05-wide bands |
| MlConfidence.Clip | backend/ml_enhanced_sizing_engine.py:618 | `np.clip` lands in the interval and keeps values already inside |
| MlConfidence.BmiTier | backend/ml_enhanced_sizing_engine.py:632-638 | the BMI tier is 1.0, 0.8 or 0.5 |
| MlConfidence.AnthropometricConfidence | backend/ml_enhanced_sizing_engine.py:622-642 | in [0.25, 1] for a percentile in [0, 100]; 1 exactly at the median height with normal BMI; at most 0.75 below BMI 16 |
| MlConfidence.EdgeCaseConfidence | backend/ml_enhanced_sizing_engine.py:644-669 | in [0.2, 0.8], so the 0.1 floor never binds; 0.8 exactly when no penalty applies; extreme BMI caps it at 0.5, extreme height at 0.6 |
| MlConfidence.Ensemble | backend/ml_enhanced_sizing_engine.py:584-620 | the result is in [0, 1]; with components in range it is exactly the weighted sum, the similarity weight capped at 1, so the clip never cuts |
| MlConfidence.EnsembleMonotone | backend/ml_enhanced_sizing_engine.py:610-618 | raising any component never lowers the ensemble |
| MlConfidence.CalculateConfidence | backend/ml_enhanced_sizing_engine.py:591-620 | with model confidence in [0, 1] and similarity weight in [0.8, 1.5], the confidence lies in [0.315, 0.96] |
| MlConfidence.BodyBlock | backend/ml_enhanced_sizing_engine.py:810-838 | 1 to 3 tags led by a body-type tag; each body-type tag appears iff its body type applies; Slim and Slender add one sleeve shortening; no height or fit tag |
| MlConfidence.HeightBlock | backend/ml_enhanced_sizing_engine.py:840-848 | trouser lengthening iff > 200 cm, sleeve lengthening iff > 190 cm, shortening iff < 160 cm |
| MlConfidence.FitBlock | backend/ml_enhanced_sizing_engine.py:850-853 | relaxation iff slim fit with BMI > 25; tightening iff relaxed fit with BMI < 22 |
| MlConfidence.EnhancedAlterations | backend/ml_enhanced_sizing_engine.py:802-855 | 1 to 6 tags, never empty, the first a body-type tag; minor adjustments iff Regular or Overweight |
| MlConfidence.EnhancedAlterationsHeightAndFit | backend/ml_enhanced_sizing_engine.py:840-853 | each height and fit tag of the full list appears exactly under its trigger |
| MlConfidence.EnhancedAlterationsBodyType | backend/ml_enhanced_sizing_engine.py:810-838 | each body-type tag of the full list appears exactly for its body types |
| MlConfidence.SleeveShorteningTwiceWhenShortAndSlim | backend/ml_enhanced_sizing_engine.py:822-846 | Slim or Slender below 160 cm lists "Sleeve_shortening" twice (no de-duplication) |
| Alterations.OccurrencesAppend | backend/ml_enhanced_sizing_engine.py:806-855 | tag counts add over the concatenated blocks |
| Wedding.RoleAdjustment | backend/wedding_sizing_engine.py:103-147 | the ring bearer has no row; rows have multiplier in [0.98, 1.02], boost in [0, 0.1] (0.1 only for the groom), flexibility in [0.9, 1.1] |
| Wedding.StyleImpactOf | backend/wedding_sizing_engine.py:149-175 | semi-formal, vintage and modern have no row; others bias toward regular, slim or relaxed with a boost in [0, 0.1] |
| Wedding.AdjustFit | backend/wedding_sizing_engine.py:207-221 | the result is the original or the bias, never a third fit; it changes iff the two differ and the draw is below \|1 − flexibility\| |
| Wedding.FitShiftByRole | backend/wedding_sizing_engine.py:207-221 | flexibility 1.0 (groomsman, usher, guests) never shifts the fit; every other role shifts on a zero draw |
| Wedding.BaseMetric | backend/wedding_sizing_engine.py:229-230 | "metric" passes through; every other unit string is converted as imperial |
| Wedding.UnitHandlingDiffers | backend/wedding_sizing_engine.py:229-230 | the wedding engine and the validator disagree exactly on units other than "metric" and "imperial" |
| Wedding.WeddingConfidence | backend/wedding_sizing_engine.py:389-405 | in [0.75, 1]; 1 iff typical measurements and regular fit; challenging measurements give ≤ 0.8, typical ones ≥ 0.95 |
| Wedding.WeddingConfidenceLevel | backend/wedding_sizing_engine.py:389-435 | Very High iff typical, or ordinary with regular fit; Medium iff challenging without regular fit; never Low or Very Low |
| Wedding.WeddingBodyType | backend/wedding_sizing_engine.py:407-422 | the wedding classifier never says Overweight |
| Wedding.ClassifiersAgreeExceptOverweight | backend/wedding_sizing_engine.py:407-422 | it agrees with the ML classifier except where that one says Overweight, where it says Regular |
| Wedding.WeddingOnlyThreeBodyTypesReachable | backend/wedding_sizing_engine.py:407-422 | from 6 cm up only Slim, Broad and Athletic are reachable |
| Wedding.BodyAlterations | backend/wedding_sizing_engine.py:443-460 | each body-type tag appears iff its body type applies |
| Wedding.FitAlterations | backend/wedding_sizing_engine.py:462-466 | slim optimisation iff "slim", relaxed comfort iff "relaxed" |
| Wedding.SizeAlterations | backend/wedding_sizing_engine.py:468-472 | petite iff the numeric size < 40, plus iff > 50 |
| Wedding.WeddingAlterations | backend/wedding_sizing_engine.py:437-474 | at most 4 tags, each present exactly under its body-type, fit or size trigger |
| Wedding.BaseRecommendation | backend/wedding_sizing_engine.py:223-300 | the size is the ladder size with the 'L' override for the converted measurements; confidence in [0.75, 1] with its wedding level; the body type is the wedding classifier's and the alterations are the wedding alteration rules' for the same measurements, fit and size; "Plus_size" never appears and "Petite" iff the base is 38 |
| Wedding.RoleAlterations | backend/wedding_sizing_engine.py:358-375 | groom, best man and fathers get their tags; every other role gets none |
| Wedding.StyleAlterations | backend/wedding_sizing_engine.py:377-385 | formal, black tie and beach get their tags; other styles none |
| Wedding.WeddingSpecificAlterations | backend/wedding_sizing_engine.py:352-387 | role tags then style tags, each present exactly for its role or style; never a size tag |
| Wedding.Enhance | backend/wedding_sizing_engine.py:302-333 | size, body type and measurements are kept; the confidence is base + role boost + style boost when that is below 1, and exactly 1 iff that sum reaches 1; the level is recomputed and never drops; the base alterations are followed by the wedding tags |
| Wedding.RecommendedFit | backend/wedding_sizing_engine.py:182-192 | the fit used is the member's preference or the style's bias |
| Wedding.Recommend | backend/wedding_sizing_engine.py:177-205 | the role, style and multiplier are echoed and plus sizing is never suggested |
| Wedding.RecommendSize | backend/wedding_sizing_engine.py:184-197 | the size is the ladder size for the measurements scaled by the role multiplier, under the recommended fit |
| Wedding.RecommendConfidence | backend/wedding_sizing_engine.py:326-331 | the confidence is min(1, heuristic for the adjusted measurements and fit + role boost + style boost), hence at least the heuristic, with its wedding level |
| Wedding.RoleBasedRecommendation | backend/wedding_sizing_engine.py:177-205 | the ring bearer fails (lookup error); other roles fail only on a zero adjusted height (division by zero) |
| Wedding.OnlyRingBearerOrZeroHeightFails | backend/wedding_sizing_engine.py:177-205 | a recommendation fails exactly for the ring bearer or a zero height |
| Wedding.AdjustedHeightNonZero | backend/wedding_sizing_engine.py:181-186 | scaling and conversion keep a non-zero height non-zero |
| Wedding.GroomTypicalRegularIsFullConfidence | backend/wedding_sizing_engine.py:389-405 | a metric groom with typical measurements and regular fit at a formal wedding gets confidence 1 and Very High |
| WeddingGroups.FirstLead | backend/wedding_group_coordination.py:35-37 | a groom or best man taken from the list, or none iff the list has no such member |
| WeddingGroups.NewGroup | backend/wedding_group_coordination.py:26-31 | a new group is empty with no coordinator |
| WeddingGroups.AddMember | backend/wedding_group_coordination.py:33-37 | appends exactly the member; an existing coordinator is never replaced; a coordinator exists afterwards iff one did or the member is a lead |
| WeddingGroups.FirstLeadAppend | backend/wedding_group_coordination.py:33-37 | appending a member changes the first lead only when there was none |
| WeddingGroups.AddMemberKeepsInvariant | backend/wedding_group_coordination.py:33-37 | adding keeps the coordinator equal to the first lead among the members |
| WeddingGroups.Build | backend/wedding_group_coordination.py:33-35 | adding members one by one yields exactly those members in order |
| WeddingGroups.BuildCoordinator | backend/wedding_group_coordination.py:33-37 | however members arrive, the coordinator is the first groom or best man |
| WeddingGroups.RoleCount | backend/wedding_group_coordination.py:43-49 | a role's count never exceeds the group size |
| WeddingGroups.GetRoles | backend/wedding_group_coordination.py:43-49 | a role is a key iff someone holds it, mapped to its count |
| WeddingGroups.RoleCountsSum | backend/wedding_group_coordination.py:43-49 | the per-role counts add up to the group size |
| GroupScores.Bases | backend/wedding_group_coordination.py:158-162 | the numeric sizes, one per member, in member order |
| GroupScores.SampleVariance | backend/wedding_group_coordination.py:168 | the sample variance is non-negative; zero iff all sizes are equal is `GroupScores.VarianceZeroIffAllEqual` |
| GroupScores.VarianceZeroIffAllEqual | backend/wedding_group_coordination.py:168 | the sample variance is non-negative and zero iff all sizes are equal |
| GroupScores.DeviationsZeroIffAllEqual | backend/wedding_group_coordination.py:168 | the scaled squared deviations vanish iff all sizes are equal |
| GroupScores.SizeConsistency | backend/wedding_group_coordination.py:151-174 | in [0, 1]; 1 for fewer than two members; 1 iff all sizes are equal |
| GroupScores.FitBonus | backend/wedding_group_coordination.py:182-186 | the fit bonus is 0, 0.05 or 0.1 |
| GroupScores.SharedFitBonus | backend/wedding_group_coordination.py:182-184 | a non-empty group with one shared fit gets 0.1 |
| GroupScores.FirstGroomBase | backend/wedding_group_coordination.py:189-193 | a groom size exists iff some member is a groom |
| GroupScores.ProximityBonus | backend/wedding_group_coordination.py:198-212 | in [0, 0.1]; zero for grooms; positive iff a non-groom is within 2 sizes of the groom |
| GroupScores.HarmonyBonus | backend/wedding_group_coordination.py:197-214 | the summed proximity bonuses are non-negative |
| GroupScores.VisualHarmony | backend/wedding_group_coordination.py:176-221 | in [0.76, 1]; at least 0.8 outside formal and black tie; at least 0.855 when everyone shares a fit |
| GroupScores.LastWithRole | backend/wedding_group_coordination.py:232-236 | the overwriting loop finds the last member with the role, or none iff nobody has it |
| GroupScores.RoleHierarchy | backend/wedding_group_coordination.py:223-252 | in [0.9, 1]; 0.9 with no groom; 1 iff the last groom's confidence is at least 0.8 and the last best man is within one size of him |
| GroupScores.MinOf | backend/wedding_group_coordination.py:268 | `min` is an element and a lower bound |
| GroupScores.MaxOf | backend/wedding_group_coordination.py:268 | `max` is an element and an upper bound |
| GroupScores.SizeRange | backend/wedding_group_coordination.py:267-269 | the range is zero iff all sizes are equal |
| GroupScores.LowConfidenceCount | backend/wedding_group_coordination.py:279-282 | the low-confidence count never exceeds the group size |
| GroupScores.PracticalFitting | backend/wedding_group_coordination.py:254-287 | in [0.6, 0.85]; 0.85 iff the sizes span at most 2 and at most 30% of members have low confidence; a span above 6 gives at most 0.7 |
| GroupScores.Combine | backend/wedding_group_coordination.py:113-118 | with sub-scores in [0, 1] the result is in [0, 1]; equal sub-scores give that score back (the weights sum to 1) |
| GroupScores.OverallScore | backend/wedding_group_coordination.py:90-118 | the overall score is in [0.468, 0.985] |
| GroupScores.CombineMonotone | backend/wedding_group_coordination.py:113-118 | raising any sub-score never lowers the overall score |
| SizeGroups.CountSize | backend/wedding_group_coordination.py:381-386 | a size's count never exceeds the member count |
| SizeGroups.AddToGroups | backend/wedding_group_coordination.py:382-386 | a member joins its size's group or opens a new one at the end exactly when its size is new |
| SizeGroups.GroupBySize | backend/wedding_group_coordination.py:380-386 | there are at most as many groups as members |
| SizeGroups.GroupBySizeCorrect | backend/wedding_group_coordination.py:380-386 | keys are distinct, groups non-empty, each member under its own size; together the groups hold exactly the members (as a multiset), and each size's group has as many members as there are of that size |
| SizeGroups.SizeDistribution | backend/wedding_group_coordination.py:473-481 | one entry per distinct size, each with the number of members of that size; the counts sum to the member count |
| SizeGroups.EverySizeListed | backend/wedding_group_coordination.py:473-481 | every member's size appears in the distribution |
| SizeGroups.Names | backend/wedding_group_coordination.py:404 | the member names in order |
| SizeGroups.BulkTerms | backend/wedding_group_coordination.py:400-407 | eligible iff the count is at least 3; savings are 25 per member after the first |
| SizeGroups.BulkGroups | backend/wedding_group_coordination.py:400-407 | one bulk entry per size group, in order of first appearance |
| SizeGroups.BulkSavingsTotal | backend/wedding_group_coordination.py:400-407 | total savings are 25 × (members − distinct sizes); each entry is eligible iff its size has at least 3 members |
| SizeGroups.InsertByCount | backend/wedding_group_coordination.py:423 | insertion adds exactly the one group |
| SizeGroups.SortByCount | backend/wedding_group_coordination.py:423 | the sort is a permutation of the groups |
| SizeGroups.SortByCountSorted | backend/wedding_group_coordination.py:423 | the groups come out largest first |
| SizeGroups.SortByCountKeepsMembers | backend/wedding_group_coordination.py:423 | sorting keeps every member |
| SizeGroups.SortByCountStableOnTies | backend/wedding_group_coordination.py:423 | when every group has the same count, the sort leaves the order unchanged |
| SizeGroups.NonGrooms | backend/wedding_group_coordination.py:425-426 | the filtered list holds no groom |
| SizeGroups.NonGroomsPermutation | backend/wedding_group_coordination.py:424-426 | permuted members give permuted non-grooms |
| SizeGroups.FirstGroom | backend/wedding_group_coordination.py:413 | the first groom in member order, or none iff there is no groom |
| SizeGroups.PriorityOrder | backend/wedding_group_coordination.py:409-434 | when there is a groom the order starts with the first one at priority 1; the order of the remaining entries and their group sizes are stated by `SizeGroups.PriorityOrderCorrect` |
| SizeGroups.PriorityOrderCorrect | backend/wedding_group_coordination.py:409-434 | the first groom (if any) comes first with priority 1; after it every non-groom appears exactly once with priority 2; each such entry's group size is the number of members sharing its size (`len(members)`), and the group sizes never increase along the list (largest groups first); later grooms are not listed |
| SizeGroups.RestEntriesAreNonGrooms | backend/wedding_group_coordination.py:422-432 | the group entries carry priority 2, name no groom, and hold each non-groom once |
| GroupAdvice.ModeIsFirstMostCommon | backend/wedding_group_coordination.py:307-309 | the mode occurs at least as often as any value, and no earlier member's size ties with it |
| GroupAdvice.FirstMostCommonCorrect | backend/wedding_group_coordination.py:308-309 | the scan's choice is the first element of maximal count |
| GroupAdvice.Mode | backend/wedding_group_coordination.py:307-309 | the mode is one of the sizes and occurs at least as often as every size; the first-seen tie-break is `GroupAdvice.ModeIsFirstMostCommon` |
| GroupAdvice.RealBases | backend/wedding_group_coordination.py:365 | the numeric sizes as reals, in member order |
| GroupAdvice.Median | backend/wedding_group_coordination.py:367 | the median lies between two of the values; the split property is `GroupAdvice.MedianSplits` |
| GroupAdvice.MedianSplits | backend/wedding_group_coordination.py:367 | at least half the sizes are at most the median and at least half at least it |
| GroupAdvice.MedianWithinBounds | backend/wedding_group_coordination.py:367 | the median lies within any common bounds of the sizes |
| GroupAdvice.CountSidePermutation | backend/wedding_group_coordination.py:367 | the counts on each side of the median do not depend on the order of the sizes |
| GroupAdvice.MeasurementChallenges | backend/wedding_group_coordination.py:351-362 | every member with a height outside 160–200 or a weight outside 55–120 gets that challenge, and every challenge comes from such a member |
| GroupAdvice.Outliers | backend/wedding_group_coordination.py:364-373 | every member more than 3 sizes from the median is flagged, each flag comes from such a member, and none are flagged when all are within 3 |
| GroupAdvice.FittingChallenges | backend/wedding_group_coordination.py:346-375 | extreme measurements first, then the outliers around the median for a non-empty group |
| GroupAdvice.NarrowGroupHasNoOutliers | backend/wedding_group_coordination.py:364-373 | a group whose sizes span at most 3 has no size outliers |
| GroupAdvice.SizeAdvice | backend/wedding_group_coordination.py:295-314 | no size advice for an empty group, at most two items, all about sizes |
| GroupAdvice.SizeAdviceRange | backend/wedding_group_coordination.py:298-304 | the range advice names the min and max and appears iff they differ by more than 4 |
| GroupAdvice.SizeAdviceBulk | backend/wedding_group_coordination.py:306-314 | the bulk advice comes last and names the mode with its count |
| GroupAdvice.RoleAdvice | backend/wedding_group_coordination.py:316-321 | the consultation advice appears iff the first groom's confidence is below 0.8 |
| GroupAdvice.StyleAdvice | backend/wedding_group_coordination.py:323-331 | formal cohesion iff formal; slim fit iff black tie |
| GroupAdvice.TimingAdvice | backend/wedding_group_coordination.py:333-342 | order soon iff under 30 days; plan fittings iff over 180 days |
| GroupAdvice.AdviceSplit | backend/wedding_group_coordination.py:289-344 | the advice is the size advice followed by the advice that mentions no size |
| GroupAdvice.CoordinationRecommendations | backend/wedding_group_coordination.py:289-344 | at most five items, starting with the size advice; each item's trigger is stated by `GroupAdvice.RangeAdviceCorrect`, `GroupAdvice.BulkAdviceCorrect`, `GroupAdvice.GroomAdviceCorrect`, `GroupAdvice.StyleAdviceCorrect` and `GroupAdvice.TimingAdviceCorrect` |
| GroupAdvice.AdviceShape | backend/wedding_group_coordination.py:289-344 | at most five items, the size advice first |
| GroupAdvice.EmptyGroupNoSizeAdvice | backend/wedding_group_coordination.py:297 | an empty group gets no size advice |
| GroupAdvice.RangeAdviceCorrect | backend/wedding_group_coordination.py:296-304 | in the full advice, the range item appears iff the group's size range exceeds 4, and always names the group's min and max |
| GroupAdvice.BulkAdviceCorrect | backend/wedding_group_coordination.py:306-314 | a non-empty group's advice always names the mode and its count, and no other bulk item |
| GroupAdvice.GroomAdviceCorrect | backend/wedding_group_coordination.py:316-321 | the full advice includes the consultation iff the first groom's confidence is below 0.8 |
| GroupAdvice.StyleAdviceCorrect | backend/wedding_group_coordination.py:323-331 | the full advice includes each style item iff the style calls for it |
| GroupAdvice.TimingAdviceCorrect | backend/wedding_group_coordination.py:333-342 | the full advice includes each timing item iff its day bound holds |
| GroupAdvice.TimelineBand | backend/wedding_group_coordination.py:445-455 | one of the five bands, one step further for each of the 30/90/180/365-day cut-offs passed |
| GroupAdvice.TimelineBandMonotone | backend/wedding_group_coordination.py:445-455 | more days never give a nearer band |
| GroupAdvice.TimelineConsiderations | backend/wedding_group_coordination.py:438-471 | the band first and no second band; the summer, winter, formal and black-tie notes each appear iff their season or style applies |
| GroupAdvice.TimelineAgreesWithAdvice | backend/wedding_group_coordination.py:445-455 | "order soon" falls in the under-a-month band and "plenty of time" in the six-month or year band |
| KctOrders.EveryProductListed | backend/kctmenswear_integration.py:95-105 | every product type has a listed price between 19.99 and 399.99, so the default 100 is never used |
| KctOrders.Price | backend/kctmenswear_integration.py:95-105 | the price is the listed one, between 19.99 and 399.99; the default is never used |
| KctOrders.Subtotal | backend/kctmenswear_integration.py:105 | the subtotal is between the cheapest and dearest price per item |
| KctOrders.SubtotalAppend | backend/kctmenswear_integration.py:105 | adding an item adds its price |
| KctOrders.DiscountRate | backend/kctmenswear_integration.py:107-114 | 0, 10% or 15%; positive iff at least 3 group members; 15% iff at least 5 |
| KctOrders.DiscountRateMonotone | backend/kctmenswear_integration.py:107-114 | a larger group never gets a smaller discount |
| KctOrders.DiscountIsRate | backend/kctmenswear_integration.py:107-113 | the discount (15% of the subtotal from 5 members, 10% from 3, else 0) equals the subtotal times the discount rate |
| KctOrders.ProductionDays | backend/kctmenswear_integration.py:119 | at least 14 and at least 2 per member, and equal to one of them |
| KctOrders.Recalculate | backend/kctmenswear_integration.py:92-120 | totals match the items; the total is in [0, subtotal]; completion is today plus the production days; nothing else changes |
| KctOrders.NewOrder | backend/kctmenswear_integration.py:74-85 | a new order is pending, empty, with consistent totals |
| KctOrders.AddItem | backend/kctmenswear_integration.py:87-90 | appends exactly the item and leaves the totals consistent; nothing else changes |
| KctOrders.AddItemTotal | backend/kctmenswear_integration.py:87-116 | the total grows by the item's price less the group's discount |
| KctOrders.TotalBounds | backend/kctmenswear_integration.py:105-116 | 0.85 × subtotal ≤ total ≤ subtotal, with equality iff no items or fewer than 3 members |
| KctOrders.AddItems | backend/kctmenswear_integration.py:168-190 | adding items keeps the group, id and status, and adding at least one leaves consistent totals |
| KctOrders.AddItemsAppends | backend/kctmenswear_integration.py:168-190 | the items end up in order after the existing ones |
| KctOrders.ProductFor | backend/kctmenswear_integration.py:196-212 | tuxedo iff black tie, blazer iff casual, otherwise suit |
| KctOrders.ProductIgnoresRole | backend/kctmenswear_integration.py:196-212 | the product does not depend on the role |
| KctOrders.ColorFor | backend/kctmenswear_integration.py:214-223 | navy iff "formal", charcoal iff "semi_formal", black otherwise |
| KctOrders.DeliveryDate | backend/kctmenswear_integration.py:257-270 | 14 days before the wedding iff rush (under 35 days), otherwise 21; always strictly before the wedding |
| KctOrders.RushDeliversLater | backend/kctmenswear_integration.py:257-270 | fewer days left never gives an earlier delivery |
| KctOrders.PriorityAlterations | backend/kctmenswear_integration.py:247-251 | the kept alterations are exactly those whose text mentions wedding, photo or comfort in any case |
| KctOrders.PriorityAlterationsAppend | backend/kctmenswear_integration.py:247-251 | filtering distributes over concatenation, keeping order |
| KctOrders.JoinEmpty | backend/kctmenswear_integration.py:255 | joining non-empty lines gives "" iff there are no lines |
| KctOrders.SpecialInstructions | backend/kctmenswear_integration.py:225-255 | "" iff no role, style or priority-alteration line applies; line by line in `KctOrders.InstructionsByRoleAndStyle` and `KctOrders.InstructionsPriorityList` |
| KctOrders.RoleLine | backend/kctmenswear_integration.py:231-237 | each role line appears iff its role; other roles have none |
| KctOrders.StyleLine | backend/kctmenswear_integration.py:239-244 | each style line appears iff its style; other styles have none |
| KctOrders.InstructionsByRoleAndStyle | backend/kctmenswear_integration.py:229-244 | each role line appears iff its role and each style line iff its style |
| KctOrders.InstructionsPriorityList | backend/kctmenswear_integration.py:246-253 | a priority line appears iff there are priority alterations, and it carries exactly them |
| KctOrders.SpecialInstructionsEmpty | backend/kctmenswear_integration.py:225-255 | the instructions are "" iff the role and style call for no line and no alteration is a priority one |
| KctOrders.ItemFor | backend/kctmenswear_integration.py:178-188 | an item carries the member, product, size, fit, alterations and delivery date, the wedding colour and the special instructions for the role, style and alterations; the instructions are "" iff no role, style or priority line applies |
| KctOrders.Collect | backend/kctmenswear_integration.py:168-172 | collecting succeeds iff every member succeeds, and otherwise reports the first failure |
| KctOrders.MemberRecommendations | backend/kctmenswear_integration.py:168-172 | one recommendation per member, with that member's draw |
| KctOrders.ItemsFor | backend/kctmenswear_integration.py:168-190 | one item per member, in order |
| KctOrders.MemberFailures | backend/kctmenswear_integration.py:168-172 | a member's recommendation fails iff the member is the ring bearer or has zero height |
| KctOrders.CreateWeddingOrder | backend/kctmenswear_integration.py:153-194 | creation fails iff some member is a ring bearer or has zero height; otherwise a pending order for the group with one item per member and consistent totals |
| KctOrders.CreateWeddingOrderItems | backend/kctmenswear_integration.py:168-190 | each created item is the member's item built from that member's recommendation |
| KctOrders.TimelineStep | backend/kctmenswear_integration.py:537-544 | plan the schedule iff over 60 days; expedite iff at most 30 |
| KctOrders.NextSteps | backend/kctmenswear_integration.py:521-546 | the last step is the timeline step; review iff the overall score is below 0.8; confirm iff pending; await and schedule iff confirmed |
| KctOrders.OneTimelineStep | backend/kctmenswear_integration.py:537-544 | exactly one step is a timeline step |
| Values.Get | backend/minimal_sizing_input.py:186-193 | `d.get(key, default)`: the entry if present, otherwise the default |
| Values.ParseUnsigned | backend/ml_railway_backend.py:98-101 | an unsigned decimal parses to a non-negative number |
| Values.ToFloat | backend/ml_railway_backend.py:98-101 | numbers convert to themselves, booleans to 1 or 0; null, collections and datetimes fail |
| Values.NatText | backend/minimal_sizing_input.py:169-170 | a natural number's text is non-empty digits without a point |
| Values.NatTextRoundTrip | backend/minimal_sizing_input.py:169-170 | `float(str(n))` gives n back |
| Values.NegatedNatText | backend/ml_railway_backend.py:98-101 | a leading minus negates the parsed number |
| MinimalInput.MeasurementCount | backend/minimal_sizing_input.py:85 | 4 iff all four measurements are given, 0 iff none |
| MinimalInput.ChoiceErrors | backend/minimal_sizing_input.py:74-82 | no error iff the value is an allowed option; the "required" error iff it is falsy; the "must be" error iff it is truthy but not allowed |
| MinimalInput.Validate | backend/minimal_sizing_input.py:58-98 | valid iff no errors; advanced iff four measurements; at most four errors and four warnings |
| MinimalInput.ValidIff | backend/minimal_sizing_input.py:58-98 | valid iff height and weight are positive and fit style and body type are allowed; nothing else matters |
| MinimalInput.ErrorsInFieldOrder | backend/minimal_sizing_input.py:63-82 | at most one error per field, in the order height, weight, fit style, body type: a height error is first and a body-type error last whenever present |
| MinimalInput.MeasureErrorCauses | backend/minimal_sizing_input.py:64-71 | a height or weight error appears iff the value is not positive |
| MinimalInput.FitStyleErrorCauses | backend/minimal_sizing_input.py:74-77 | the fit-style error says whether the value was missing or not allowed |
| MinimalInput.BodyTypeErrorCauses | backend/minimal_sizing_input.py:79-82 | the body-type error says whether the value was missing or not allowed |
| MinimalInput.RangesOnlyWarn | backend/minimal_sizing_input.py:64-72 | a positive height outside 100–250 or weight outside 30–200 warns and is never an error |
| MinimalInput.ValidityIgnoresMagnitude | backend/minimal_sizing_input.py:64-72 | changing a positive height or weight never changes validity |
| MinimalInput.MeasurementWarning | backend/minimal_sizing_input.py:85-87 | the completeness warning appears iff 1 to 3 measurements are given |
| MinimalInput.UnknownRoleWarning | backend/minimal_sizing_input.py:89-91 | an unknown truthy wedding role only warns and never affects validity |
| MinimalInput.TierConfidence | backend/minimal_sizing_input.py:114-138 | tier confidences lie in [0.91, 0.95] |
| MinimalInput.EnhancementLevel | backend/minimal_sizing_input.py:114-138 | full iff four measurements; wedding-enhanced iff fewer with a truthy role; basic otherwise |
| MinimalInput.TierMatchesInputLevel | backend/minimal_sizing_input.py:114-120 | the full tier is exactly the advanced input level |
| MinimalInput.AccuracyLabelByInput | backend/minimal_sizing_input.py:114-138 | the label is "95%+" iff the validator reports advanced input, "93%" iff basic input with a truthy role, "91%" otherwise; a role the validator warns about still earns the wedding tier |
| MinimalInput.MoreInformationNeverLowersConfidence | backend/minimal_sizing_input.py:114-138 | adding measurements or a role never lowers the expected confidence |
| MinimalInput.ToMemberRecord | backend/minimal_sizing_input.py:100-112 | the role defaults to "groom" when missing or empty; the fit style becomes the fit preference; the other fields are copied |
| MinimalInput.MemberRoleKnownWithoutWarning | backend/minimal_sizing_input.py:100-112 | without a role warning, the member record's role is a known role |
| MinimalInput.FirstMissing | backend/minimal_sizing_input.py:162-165 | the first absent required field, or none iff all are present |
| MinimalInput.OptionalNumber | backend/minimal_sizing_input.py:176-183 | an absent measurement stays absent; a present one must convert |
| MinimalInput.FromDict | backend/minimal_sizing_input.py:158-199 | the first missing required field fails; on success the values are converted or copied, optional fields are set only when present, and the unit defaults to "metric" |
| MinimalInput.FromDictFailures | backend/minimal_sizing_input.py:168-199 | a conversion failure names a field that is present and not a number |
| MinimalInput.ToRequest | backend/minimal_sizing_input.py:158-193 | a request built from an input carries every required field |
| MinimalInput.ToRequestRequired | backend/minimal_sizing_input.py:162-193 | its required and wedding entries carry the input's values |
| MinimalInput.ToRequestMeasurements | backend/minimal_sizing_input.py:176-183 | its measurement entries are present exactly when given |
| MinimalInput.FromRequestRoundTrip | backend/minimal_sizing_input.py:158-199 | reading an input's request dictionary gives the input back |
| Backend.ValidateInput | backend/ml_railway_backend.py:84-134 | success implies 120 ≤ height ≤ 250 and 40 ≤ weight ≤ 200 on the raw numbers, an allowed fit and unit, and echoes the converted values with the defaults |
| Backend.ValidateInputAccepts | backend/ml_railway_backend.py:89-134 | accepted iff height and weight convert to numbers in 120–250 and 40–200 and the fit and unit (defaults "regular", "metric") are allowed values |
| Backend.ValidateInputDefaults | backend/ml_railway_backend.py:91-92 | without fit or unit, success means "regular" and "metric" |
| Backend.ImperialHeightRejected | backend/ml_railway_backend.py:118-124 | a 69-inch imperial height is rejected by the centimetre range |
| Backend.ValidateInputFieldErrors | backend/ml_railway_backend.py:94-110 | the result is "height required" iff height is missing or null, and "height not a number" iff it is present and does not convert |
| Backend.Prune | backend/ml_railway_backend.py:68-72 | keeps exactly the windows not older than the previous minute, with their counts |
| Backend.CheckRateLimit | backend/ml_railway_backend.py:60-82 | accepts iff the current window holds fewer than 10; the count rises by exactly 1 iff accepted; other clients are untouched; only old windows are dropped |
| Backend.CheckRateLimitKeepsLimit | backend/ml_railway_backend.py:74-82 | no window ever holds more than 10 |
| Backend.Requests | backend/ml_railway_backend.py:60-82 | a run of requests accepts at most as many as it makes |
| Backend.OneWindowAccepts | backend/ml_railway_backend.py:74-82 | within one window, accepted requests add exactly their number to the count, which stays within the limit |
| Backend.AtMostTenPerWindow | backend/ml_railway_backend.py:60-82 | a client gets at most 10 requests accepted in a minute window |
| Backend.FullWindowRejects | backend/ml_railway_backend.py:77-78 | once 10 are counted, every further request in the window is rejected and the count is unchanged |
| Backend.CacheValid | backend/ml_railway_backend.py:44-58 | a numeric timestamp is fresh iff less than 300 s old; unparseable text, null and collections are stale |
| Backend.CacheValidMonotone | backend/ml_railway_backend.py:58 | an entry fresh later was fresh at every earlier moment |
| Backend.CacheExpiresAfterTtl | backend/ml_railway_backend.py:44-58 | a numeric entry is fresh 299 s after its timestamp and stale at 300 s |
| Backend.ConfidenceNotice | backend/ml_railway_backend.py:196-199 | a warning iff confidence < 0.6; a notice iff 0.6 ≤ confidence < 0.75; nothing otherwise |
| Backend.NoticeMonotone | backend/ml_railway_backend.py:196-199 | a higher confidence never draws a more severe notice |
| Sorting.SortCorrect | backend/ml_enhanced_sizing_engine.py:163 | `sorted` returns an ascending permutation of its input |
| Sorting.SortBounds | backend/ml_enhanced_sizing_engine.py:163-168 | the sorted list starts with the minimum and ends with the maximum |

## Left out

- The ML predictor (`MLSizePredictor`: scikit-learn models, scalers, pickling) is a foreign library. Its predicted size and model confidence are inputs to the scorer.
- The customer-similarity engine (synthetic data from numpy/pandas, nearest-neighbour lookup) is left out. Only its deterministic size ladder is modelled, and its similarity weight is an input.
- `get_size_recommendation`, `get_engine_stats` and `analyze_group_consistency` are orchestration and timing. The sub-scores and their combination are modelled, but the `round(..., 3)` of the results is not.
- Rationale strings and other f-string messages are not modelled. Messages are modelled as tags or datatype constructors, not exact text.
- Floating point is not modelled. All arithmetic is exact over `real`, so rounding, NaN, infinities and overflow are absent. In particular:
  - the validators' NaN paths are not modelled;
  - `float()` forms with whitespace, exponents, "inf"/"nan" or underscores are not parsed by `Values.ParseDecimal`, which accepts only plain signed decimals.
- `datetime.now()` and `time.time()` are parameters (`today`, `daysUntil`, `now`). The ISO timestamp parser is the parameter `parseIso`.
- Wedding.AdjustFit: `random.random()` is the parameter `draw`. The contract states which fits each draw yields, not a probability distribution.
- MinimalInput.ToMemberRecord: `id(self)` is the parameter `objectId`.
- The KCT API simulation is not modelled: order submission, tracking, the dashboard, the production timeline, the fitting schedule and special requirements.
- The `to_dict` serialisers and timestamp formatting are not modelled.
- The Flask routes, CLI menus, logging and cache-dictionary plumbing of the Railway back end are not modelled, including `get_cache_key`'s float formatting.
- `process_sizing_request` is not modelled beyond its confidence notices.
- Backend.ValidateInput takes the request body as a `map<string, Value>`. A JSON body that is not an object (a list, a string or `null`, where `data.get` raises) and an integer too large for `float()` both reach the catch-all "Validation error" branch in the Python code; neither is modelled.
- Anthropometry.Bmi, Anthropometry.HeightWeightRatio and Anthropometry.ValidateMeasurements require a non-zero height. A zero height makes `calculate_bmi` raise ZeroDivisionError, and that error path is not modelled. The Railway back end rejects heights below 120 cm before these functions run.
- Wedding.Recommend: its own contract states only the echoed fields and the absence of plus sizing. The exact size is stated by `Wedding.RecommendSize` and the exact capped confidence by `Wedding.RecommendConfidence`.
- SizeGroups.SortByCountStableOnTies: states Python's sort stability only for lists whose groups all tie, not for ties within a mixed list.
- backend/app.py and the test scripts are outside the modelled core.
