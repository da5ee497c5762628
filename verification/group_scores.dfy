/**
 * The group analyzer's four sub-scores (size consistency, visual harmony, role
 * hierarchy, practical fitting) and their weighted overall score, computed over
 * the members' precomputed recommendations.
 */
module GroupScores {
  import opened Wrappers
  import opened Wedding
  import opened WeddingGroups
  import Anthropometry

  /** The numeric sizes of the recommendations, in member order. */
  function Bases(recs: seq<MemberRec>): (xs: seq<int>)
    ensures |xs| == |recs|
    ensures forall i :: 0 <= i < |recs| ==> xs[i] == Numeric(recs[i])
  {
    if |recs| == 0 then [] else [Numeric(recs[0])] + Bases(recs[1..])
  }

  function Sum(xs: seq<int>): int {
    if |xs| == 0 then 0 else xs[0] + Sum(xs[1..])
  }

  function AbsInt(x: int): nat {
    if x < 0 then -x else x
  }

  /** k squared, by repeated odd increments. */
  function Square(k: nat): (s: nat)
    ensures k > 0 ==> s > 0
  {
    if k == 0 then 0 else Square(k - 1) + 2 * k - 1
  }

  lemma {:induction false} SquareIsProduct(k: nat)
    ensures Square(k) == k * k
  {
    if k > 0 {
      SquareIsProduct(k - 1);
    }
  }

  /**
   * Sum over the sizes of (n * x - total)^2, which is n^2 times the sum of
   * squared deviations from the mean total / n; kept in integers.
   */
  function ScaledDeviations(xs: seq<int>, n: int, total: int): nat {
    if |xs| == 0 then 0
    else Square(AbsInt(n * xs[0] - total)) + ScaledDeviations(xs[1..], n, total)
  }

  /**
   * `statistics.variance`: the sample variance (n - 1 in the denominator),
   * sum of (x - mean)^2 over n - 1, written as the scaled deviations over n^2 (n - 1).
   */
  function SampleVariance(xs: seq<int>): (v: real)
    requires |xs| >= 2
    ensures v >= 0.0
  {
    var n := |xs|;
    DenominatorPositive(n);
    QuotientSign(ScaledDeviations(xs, n, Sum(xs)), n * n * (n - 1));
    ScaledDeviations(xs, n, Sum(xs)) as real / (n * n * (n - 1)) as real
  }

  predicate AllEqual(xs: seq<int>) {
    forall i :: 0 <= i < |xs| ==> xs[i] == xs[0]
  }

  lemma {:induction false} SumOfEqual(xs: seq<int>, c: int)
    requires forall i :: 0 <= i < |xs| ==> xs[i] == c
    ensures Sum(xs) == |xs| * c
  {
    if |xs| > 0 {
      SumOfEqual(xs[1..], c);
    }
  }

  lemma {:induction false} DeviationsZero(xs: seq<int>, n: int, total: int)
    requires forall i :: 0 <= i < |xs| ==> n * xs[i] == total
    ensures ScaledDeviations(xs, n, total) == 0
  {
    if |xs| > 0 {
      DeviationsZero(xs[1..], n, total);
    }
  }

  lemma {:induction false} DeviationsPositive(xs: seq<int>, n: int, total: int, i: nat)
    requires i < |xs| && n * xs[i] != total
    ensures ScaledDeviations(xs, n, total) > 0
  {
    if i > 0 {
      assert xs[1..][i - 1] == xs[i];
      DeviationsPositive(xs[1..], n, total, i - 1);
    }
  }

  lemma MulCancel(n: int, a: int, b: int)
    requires n > 0 && n * a == n * b
    ensures a == b
  {
  }

  lemma QuotientSign(d: nat, den: int)
    requires den > 0
    ensures d as real / den as real >= 0.0
    ensures d as real / den as real == 0.0 <==> d == 0
  {
    var q := d as real / den as real;
    assert q * den as real == d as real;
    if q < 0.0 {
      Anthropometry.MulMonoLe(q, 0.0, den as real);
    }
  }

  lemma DenominatorPositive(n: int)
    requires n >= 2
    ensures n * n * (n - 1) > 0
  {
    assert n * n > 0;
  }

  /** Scaled deviations vanish exactly when all sizes are equal. */
  lemma DeviationsZeroIffAllEqual(xs: seq<int>)
    requires |xs| >= 1
    ensures ScaledDeviations(xs, |xs|, Sum(xs)) == 0 <==> AllEqual(xs)
  {
    var n := |xs|;
    var total := Sum(xs);
    if AllEqual(xs) {
      SumOfEqual(xs, xs[0]);
      DeviationsZero(xs, n, total);
    } else {
      var i :| 0 <= i < |xs| && xs[i] != xs[0];
      if n * xs[i] != total {
        DeviationsPositive(xs, n, total, i);
      } else {
        if n * xs[0] == total {
          MulCancel(n, xs[i], xs[0]);
        }
        DeviationsPositive(xs, n, total, 0);
      }
    }
  }

  /** The sample variance is non-negative, and zero exactly when all sizes are equal. */
  lemma VarianceZeroIffAllEqual(xs: seq<int>)
    requires |xs| >= 2
    ensures SampleVariance(xs) >= 0.0
    ensures SampleVariance(xs) == 0.0 <==> AllEqual(xs)
  {
    var n := |xs|;
    DenominatorPositive(n);
    DeviationsZeroIffAllEqual(xs);
    QuotientSign(ScaledDeviations(xs, n, Sum(xs)), n * n * (n - 1));
  }

  /**
   * Size consistency: 1.0 for fewer than two members, otherwise
   * max(0, 1 - variance / 16). It is 1.0 exactly when every size is the same.
   */
  function SizeConsistency(recs: seq<MemberRec>): (r: real)
    ensures 0.0 <= r <= 1.0
    ensures |recs| < 2 ==> r == 1.0
    ensures r == 1.0 <==> AllEqual(Bases(recs))
  {
    if |recs| < 2 then 1.0
    else
      VarianceZeroIffAllEqual(Bases(recs));
      var v := SampleVariance(Bases(recs));
      var score := 1.0 - v / 16.0;
      if score > 0.0 then score else 0.0
  }

  /** The distinct fit preferences in the group. */
  function FitKinds(recs: seq<MemberRec>): set<string> {
    set i | 0 <= i < |recs| :: recs[i].member.fitPreference
  }

  /** +0.1 when everybody shares one fit, +0.05 for exactly two fits. */
  function FitBonus(recs: seq<MemberRec>): (b: real)
    ensures b == 0.0 || b == 0.05 || b == 0.1
  {
    var k := |FitKinds(recs)|;
    if k == 1 then 0.1 else if k == 2 then 0.05 else 0.0
  }

  /** A non-empty group whose members all share one fit gets the full fit bonus. */
  lemma SharedFitBonus(recs: seq<MemberRec>)
    ensures SharedFit(recs) ==> FitBonus(recs) == 0.1
  {
    if SharedFit(recs) {
      assert FitKinds(recs) == {recs[0].member.fitPreference};
    }
  }

  /** The group is non-empty and every member has the first member's fit. */
  predicate SharedFit(recs: seq<MemberRec>) {
    |recs| > 0 && forall i :: 0 <= i < |recs| ==> recs[i].member.fitPreference == recs[0].member.fitPreference
  }

  /** The numeric size of the first groom, if there is one. */
  function FirstGroomBase(recs: seq<MemberRec>): (b: Option<int>)
    ensures b.Some? <==> exists i :: 0 <= i < |recs| && recs[i].member.role == Groom
  {
    if |recs| == 0 then None
    else if recs[0].member.role == Groom then Some(Numeric(recs[0]))
    else
      var rest := FirstGroomBase(recs[1..]);
      assert forall i :: 1 <= i < |recs| ==> recs[i] == recs[1..][i - 1];
      rest
  }

  /**
   * Proximity bonus of one non-groom member to the groom's size: best man +0.1
   * within 1 and +0.05 within 2, anyone else +0.05 within 2.
   */
  function ProximityBonus(r: MemberRec, groomBase: int): (b: real)
    ensures 0.0 <= b <= 0.1
    ensures r.member.role == Groom ==> b == 0.0
    ensures b > 0.0 <==> r.member.role != Groom && AbsInt(Numeric(r) - groomBase) <= 2
  {
    if r.member.role == Groom then 0.0
    else
      var diff := AbsInt(Numeric(r) - groomBase);
      if r.member.role == BestMan then
        (if diff <= 1 then 0.1 else if diff <= 2 then 0.05 else 0.0)
      else if diff <= 2 then 0.05 else 0.0
  }

  function HarmonyBonus(recs: seq<MemberRec>, groomBase: int): (b: real)
    ensures b >= 0.0
  {
    if |recs| == 0 then 0.0 else ProximityBonus(recs[0], groomBase) + HarmonyBonus(recs[1..], groomBase)
  }

  predicate IsFormalStyle(style: Style) {
    style == Formal || style == BlackTie
  }

  /**
   * Visual harmony: 0.8 plus the fit bonus, plus the proximity bonuses when a
   * groom with a non-zero size exists, times 0.95 for formal or black-tie
   * weddings, capped at 1.0.
   */
  function VisualHarmony(recs: seq<MemberRec>, style: Style): (r: real)
    ensures 0.76 <= r <= 1.0
    ensures !IsFormalStyle(style) ==> r >= 0.8
    ensures SharedFit(recs) ==> r >= 0.855
  {
    var groom := FirstGroomBase(recs);
    var proximity := if groom.Some? && groom.value != 0 then HarmonyBonus(recs, groom.value) else 0.0;
    var raw := 0.8 + FitBonus(recs) + proximity;
    var styled := if IsFormalStyle(style) then raw * 0.95 else raw;
    SharedFitBonus(recs);
    if styled < 1.0 then styled else 1.0
  }

  /** The last member with the role, as the analyzer's overwriting loop finds it. */
  function LastWithRole(recs: seq<MemberRec>, role: Role): (r: Option<MemberRec>)
    ensures r.Some? ==> r.value in recs && r.value.member.role == role
    ensures r.None? <==> forall i :: 0 <= i < |recs| ==> recs[i].member.role != role
  {
    if |recs| == 0 then None
    else if recs[|recs| - 1].member.role == role then Some(recs[|recs| - 1])
    else
      var rest := LastWithRole(recs[..|recs| - 1], role);
      assert forall i :: 0 <= i < |recs| - 1 ==> recs[i] == recs[..|recs| - 1][i];
      rest
  }

  /**
   * Role hierarchy: 0.9, +0.05 when the (last) groom's confidence is at least
   * 0.8, +0.05 when the (last) best man is within one size of that groom.
   */
  function RoleHierarchy(recs: seq<MemberRec>): (r: real)
    ensures 0.9 <= r <= 1.0
    ensures var g := LastWithRole(recs, Groom); var b := LastWithRole(recs, BestMan);
      r == 1.0 <==> g.Some? && g.value.confidence >= 0.8 && b.Some? &&
                    AbsInt(Numeric(g.value) - Numeric(b.value)) <= 1
    ensures LastWithRole(recs, Groom).None? ==> r == 0.9
  {
    var g := LastWithRole(recs, Groom);
    var b := LastWithRole(recs, BestMan);
    var withGroom := if g.Some? && g.value.confidence >= 0.8 then 0.95 else 0.9;
    var withBest :=
      if g.Some? && b.Some? && AbsInt(Numeric(g.value) - Numeric(b.value)) <= 1
      then withGroom + 0.05 else withGroom;
    if withBest < 1.0 then withBest else 1.0
  }

  /** `min(sizes)`. */
  function MinOf(xs: seq<int>): (m: int)
    requires |xs| > 0
    ensures forall i :: 0 <= i < |xs| ==> m <= xs[i]
    ensures m in xs
  {
    if |xs| == 1 then xs[0]
    else
      var rest := MinOf(xs[1..]);
      if xs[0] <= rest then xs[0] else rest
  }

  /** `max(sizes)`. */
  function MaxOf(xs: seq<int>): (m: int)
    requires |xs| > 0
    ensures forall i :: 0 <= i < |xs| ==> xs[i] <= m
    ensures m in xs
  {
    if |xs| == 1 then xs[0]
    else
      var rest := MaxOf(xs[1..]);
      if xs[0] >= rest then xs[0] else rest
  }

  /** Spread of the numeric sizes, 0 for an empty group. */
  function SizeRange(recs: seq<MemberRec>): (r: nat)
    ensures r == 0 <==> AllEqual(Bases(recs))
  {
    var xs := Bases(recs);
    if |xs| == 0 then 0
    else
      assert MinOf(xs) == MaxOf(xs) ==> forall i :: 0 <= i < |xs| ==> xs[i] == xs[0];
      MaxOf(xs) - MinOf(xs)
  }

  /** Members whose confidence is below 0.7. */
  function LowConfidenceCount(recs: seq<MemberRec>): (n: nat)
    ensures n <= |recs|
  {
    if |recs| == 0 then 0
    else (if recs[0].confidence < 0.7 then 1 else 0) + LowConfidenceCount(recs[1..])
  }

  /**
   * Practical fitting: 0.85 minus one range penalty (over 6: 0.15, over 4: 0.1,
   * over 2: 0.05) and minus 0.1 when more than 30% of members have low confidence.
   */
  function PracticalFitting(recs: seq<MemberRec>): (r: real)
    ensures 0.6 <= r <= 0.85
    ensures r == 0.85 <==>
      SizeRange(recs) <= 2 && LowConfidenceCount(recs) as real <= |recs| as real * 0.3
    ensures SizeRange(recs) > 6 ==> r <= 0.7
  {
    var range := SizeRange(recs);
    var penalty := if range > 6 then 0.15 else if range > 4 then 0.1 else if range > 2 then 0.05 else 0.0;
    var lowPenalty := if LowConfidenceCount(recs) as real > |recs| as real * 0.3 then 0.1 else 0.0;
    var score := 0.85 - penalty - lowPenalty;
    if score > 0.0 then score else 0.0
  }

  const ConsistencyWeight: real := 0.4
  const HarmonyWeight: real := 0.3
  const HierarchyWeight: real := 0.2
  const PracticalWeight: real := 0.1

  /** The weighted combination of the four sub-scores. */
  function Combine(consistency: real, harmony: real, hierarchy: real, practical: real): (r: real)
    requires 0.0 <= consistency <= 1.0 && 0.0 <= harmony <= 1.0
    requires 0.0 <= hierarchy <= 1.0 && 0.0 <= practical <= 1.0
    ensures 0.0 <= r <= 1.0
    ensures consistency == harmony == hierarchy == practical ==> r == consistency
  {
    consistency * ConsistencyWeight + harmony * HarmonyWeight +
    hierarchy * HierarchyWeight + practical * PracticalWeight
  }

  /**
   * The overall score. Its bounds follow from the sub-scores' bounds: at least
   * 0.468 (no consistency, lowest harmony, hierarchy and practicality) and at
   * most 0.985 (practical fitting never exceeds 0.85).
   */
  function OverallScore(recs: seq<MemberRec>, style: Style): (r: real)
    ensures 0.0 <= r <= 1.0
    ensures 0.468 <= r <= 0.985
  {
    Combine(SizeConsistency(recs), VisualHarmony(recs, style), RoleHierarchy(recs), PracticalFitting(recs))
  }

  /** The overall score grows with each sub-score. */
  lemma CombineMonotone(c1: real, h1: real, r1: real, p1: real, c2: real, h2: real, r2: real, p2: real)
    requires 0.0 <= c1 <= c2 <= 1.0 && 0.0 <= h1 <= h2 <= 1.0
    requires 0.0 <= r1 <= r2 <= 1.0 && 0.0 <= p1 <= p2 <= 1.0
    ensures Combine(c1, h1, r1, p1) <= Combine(c2, h2, r2, p2)
  {
  }
}
