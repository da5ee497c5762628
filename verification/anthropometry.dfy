/**
 * Anthropometric primitives of the ML-enhanced engine: unit conversion, BMI,
 * the height-weight ratio, body-type classification, age estimate,
 * piecewise-linear percentiles and validation notes.
 */
module Anthropometry {
  import Sorting

  const InchToCm: real := 2.54
  const PoundToKg: real := 0.453592

  function Abs(x: real): real {
    if x < 0.0 then -x else x
  }

  /** Canonical measurements: height in centimetres, weight in kilograms. */
  datatype Metric = Metric(heightCm: real, weightKg: real)

  /** Unit normalisation: only the exact token "imperial" converts; every other token passes through. */
  function ToMetric(height: real, weight: real, unit: string): (m: Metric)
    ensures unit != "imperial" ==> m == Metric(height, weight)
    ensures height > 0.0 && weight > 0.0 ==> m.heightCm > 0.0 && m.weightKg > 0.0
  {
    if unit == "imperial" then Metric(height * InchToCm, weight * PoundToKg)
    else Metric(height, weight)
  }

  /** Inverse conversion back to inches and pounds (not in the Python code; the partner of ToMetric). */
  function FromMetricToImperial(m: Metric): (r: (real, real))
  {
    (m.heightCm / InchToCm, m.weightKg / PoundToKg)
  }

  /** Imperial inputs survive a metric round trip exactly (real arithmetic, no rounding). */
  lemma ImperialRoundTrip(height: real, weight: real)
    ensures FromMetricToImperial(ToMetric(height, weight, "imperial")) == (height, weight)
  {
    var m := ToMetric(height, weight, "imperial");
    assert m.heightCm / InchToCm == height;
    assert m.weightKg / PoundToKg == weight;
  }

  /** bmi = kg / (cm/100)^2; a zero height is a division by zero in the Python code. */
  function Bmi(heightCm: real, weightKg: real): (bmi: real)
    requires heightCm != 0.0
    ensures bmi * (heightCm / 100.0) * (heightCm / 100.0) == weightKg
    ensures weightKg > 0.0 ==> bmi > 0.0
  {
    var heightM := heightCm / 100.0;
    weightKg / (heightM * heightM)
  }

  /** ratio = kg / (cm/100): kilograms per metre of height, about 40 for adults. */
  function HeightWeightRatio(heightCm: real, weightKg: real): (ratio: real)
    requires heightCm != 0.0
    ensures ratio * (heightCm / 100.0) == weightKg
  {
    weightKg / (heightCm / 100.0)
  }

  /** The ratio is the BMI scaled by height in metres. */
  lemma RatioIsBmiTimesHeight(heightCm: real, weightKg: real)
    requires heightCm != 0.0
    ensures HeightWeightRatio(heightCm, weightKg) == Bmi(heightCm, weightKg) * (heightCm / 100.0)
  {
    var m := heightCm / 100.0;
    var b := Bmi(heightCm, weightKg);
    assert b * m * m == weightKg;
    assert (b * m) * m == weightKg;
  }

  datatype BodyType = Slim | Broad | Athletic | Slender | Overweight | Regular

  /** The ML engine's classifier: first match wins, with an extra Overweight branch. */
  function ClassifyBodyType(heightCm: real, weightKg: real, bmi: real): (t: BodyType)
    requires heightCm != 0.0
    ensures t == Slim <==> bmi < 18.5
    ensures t == Broad <==> bmi > 30.0
    ensures t == Athletic ==> 18.5 <= bmi <= 30.0 && HeightWeightRatio(heightCm, weightKg) > 1.1
    ensures t == Overweight ==> 25.0 <= bmi < 30.0
  {
    var ratio := HeightWeightRatio(heightCm, weightKg);
    if bmi < 18.5 then Slim
    else if bmi > 30.0 then Broad
    else if ratio > 1.1 then Athletic
    else if ratio < 0.85 then Slender
    else if bmi >= 25.0 && bmi < 30.0 then Overweight
    else Regular
  }

  /**
   * Because the ratio is kg per metre rather than a BMI-scaled value, any height of
   * at least 6 cm with a BMI in [18.5, 30] is classified Athletic: only Slim, Broad
   * and Athletic are reachable, and each corresponds to a BMI band.
   */
  lemma OnlyThreeBodyTypesReachable(heightCm: real, weightKg: real)
    requires heightCm >= 6.0
    ensures var t := ClassifyBodyType(heightCm, weightKg, Bmi(heightCm, weightKg));
      && (t == Slim <==> Bmi(heightCm, weightKg) < 18.5)
      && (t == Broad <==> Bmi(heightCm, weightKg) > 30.0)
      && (t == Athletic <==> 18.5 <= Bmi(heightCm, weightKg) <= 30.0)
  {
    var b := Bmi(heightCm, weightKg);
    var m := heightCm / 100.0;
    RatioIsBmiTimesHeight(heightCm, weightKg);
    if 18.5 <= b {
      assert m >= 0.06;
      assert b * m >= 18.5 * m;
      assert HeightWeightRatio(heightCm, weightKg) >= 1.11;
    }
  }

  /** Age estimate: a base of 35 nudged by height and BMI, clamped to [18, 65]. */
  function EstimateAge(heightCm: real, weightKg: real, bmi: real): (age: int)
    ensures 18 <= age <= 65
    ensures 30 <= age <= 42  // the clamp never binds
    ensures heightCm > 180.0 && bmi > 28.0 ==> age == 37
    ensures heightCm < 165.0 && bmi < 22.0 ==> age == 35
  {
    var byHeight := if heightCm > 180.0 then -3 else if heightCm < 165.0 then 2 else 0;
    var byBmi := if bmi > 28.0 then 5 else if bmi < 22.0 then -2 else 0;
    var baseAge := 35 + byHeight + byBmi;
    if baseAge < 18 then 18 else if baseAge > 65 then 65 else baseAge
  }

  /**
   * One step of the interpolation scan over sorted points: the first segment
   * s[i] <= v <= s[i+1] gives i*step + position*step. The scan is entered only with
   * s[0] < v < s[last], so a matching segment always exists (the Python code's trailing
   * `return 50.0` is unreachable) and its end points differ (no division by zero).
   */
  function Scan(v: real, s: seq<real>, i: nat): real
    requires Sorting.Sorted(s)
    requires i < |s| - 1
    requires s[i] < v < s[|s| - 1]
    decreases |s| - i
  {
    var step := 100.0 / ((|s| - 1) as real);
    if s[i] <= v <= s[i + 1] then
      var lower := s[i];
      var upper := s[i + 1];
      var position := (v - lower) / (upper - lower);
      (i as real) * step + position * step
    else
      Scan(v, s, i + 1)
  }

  /** Segment i of the nn equal steps covering [0, 100] lies strictly inside (i*step, 100). */
  lemma SegmentValue(ii: real, position: real, nn: real, step: real)
    requires step > 0.0 && step * nn == 100.0
    requires 0.0 <= ii && ii + 1.0 <= nn
    requires 0.0 < position <= 1.0
    requires ii + 1.0 == nn ==> position < 1.0
    ensures ii * step < ii * step + position * step < 100.0
  {
    FractionOfStep(position, step);
    NextStep(ii, step);
    MulCommutes(step, nn);
    if ii + 1.0 < nn {
      MulMonoLt(ii + 1.0, nn, step);
    }
    StepSum(ii * step, position * step, step, (ii + 1.0) * step, nn * step, ii + 1.0 == nn);
  }

  /**
   * The linear core of the segment bound: an offset in (0, step] added to the
   * segment start stays below the top, strictly for the last segment.
   */
  lemma StepSum(start: real, offset: real, step: real, next: real, top: real, last: bool)
    requires 0.0 < offset <= step && next == start + step && top == 100.0
    requires last ==> next == top && offset < step
    requires !last ==> next < top
    ensures start < start + offset < 100.0
  {
  }

  /** A fraction in (0, 1] of a positive step is in (0, step], below it for a fraction below 1. */
  lemma FractionOfStep(position: real, step: real)
    requires 0.0 < position <= 1.0 && step > 0.0
    ensures 0.0 < position * step <= step
    ensures position < 1.0 ==> position * step < step
  {
    MulMonoLt(0.0, position, step);
    MulMonoLe(position, 1.0, step);
    if position < 1.0 {
      MulMonoLt(position, 1.0, step);
    }
  }

  lemma NextStep(ii: real, step: real)
    ensures (ii + 1.0) * step == ii * step + step
  {
  }

  lemma MulCommutes(x: real, y: real)
    ensures x * y == y * x
  {
  }

  /** The scan lands strictly inside (i*step, 100). */
  lemma {:induction false} ScanRange(v: real, s: seq<real>, i: nat)
    requires Sorting.Sorted(s)
    requires i < |s| - 1
    requires s[i] < v < s[|s| - 1]
    ensures (i as real) * (100.0 / ((|s| - 1) as real)) < Scan(v, s, i) < 100.0
    decreases |s| - i
  {
    var step := 100.0 / ((|s| - 1) as real);
    if s[i] <= v <= s[i + 1] {
      var d := s[i + 1] - s[i];
      FractionInUnit(v - s[i], d);
      if i + 1 == |s| - 1 {
        FractionBelowOne(v - s[i], d);
      }
      var nn := (|s| - 1) as real;
      assert step * nn == 100.0;
      if step <= 0.0 {
        MulMonoLe(step, 0.0, nn);
        assert false;
      }
      SegmentValue(i as real, (v - s[i]) / d, nn, step);
    } else {
      ScanRange(v, s, i + 1);
      assert step > 0.0;
      assert (i as real) * step < ((i + 1) as real) * step;
    }
  }

  lemma MulMonoLe(a: real, b: real, c: real)
    requires a <= b && c >= 0.0
    ensures a * c <= b * c
  {
  }

  lemma MulMonoLt(a: real, b: real, c: real)
    requires a < b && c > 0.0
    ensures a * c < b * c
  {
  }

  /** Division by a positive number preserves order. */
  lemma DivMonoLe(a: real, b: real, d: real)
    requires a <= b && d > 0.0
    ensures a / d <= b / d
  {
    assert (a / d) * d == a;
    assert (b / d) * d == b;
  }

  /** A positive part of a positive whole is a fraction in (0, 1]. */
  lemma FractionInUnit(a: real, d: real)
    requires 0.0 < a <= d
    ensures 0.0 < a / d <= 1.0
  {
    assert (a / d) * d == a;
    if a / d <= 0.0 {
      MulMonoLe(a / d, 0.0, d);
    }

  }

  /** A strictly smaller part is a fraction below 1. */
  lemma FractionBelowOne(a: real, d: real)
    requires 0.0 < a < d
    ensures a / d < 1.0
  {
    assert (a / d) * d == a;
    if a / d >= 1.0 {
      MulMonoLe(1.0, a / d, d);
    }
  }

  /**
   * Percentile of a value against reference points: 50 for no points, 0 at or
   * below the smallest, 100 at or above the largest, linear in between.
   */
  function Percentile(value: real, points: seq<real>): (r: real)
    ensures 0.0 <= r <= 100.0
    ensures |points| == 0 ==> r == 50.0
    ensures |points| > 0 ==>
      ((r == 0.0) <==> (forall k :: 0 <= k < |points| ==> value <= points[k]))
    ensures |points| > 0 ==>
      ((r == 100.0) <==> (exists k :: 0 <= k < |points| && value > points[k]) &&
                         (forall k :: 0 <= k < |points| ==> value >= points[k]))
  {
    if |points| == 0 then 50.0
    else
      var s := Sorting.Sort(points);
      Sorting.SortCorrect(points);
      PercentileEnds(value, points, s);
      if value <= s[0] then 0.0
      else if value >= s[|s| - 1] then 100.0
      else
        ScanRange(value, s, 0);
        Scan(value, s, 0)
  }

  /** The sorted copy's first and last elements are the extremes of the points. */
  lemma PercentileEnds(value: real, points: seq<real>, s: seq<real>)
    requires |points| > 0
    requires s == Sorting.Sort(points)
    ensures (value <= s[0]) <==> (forall k :: 0 <= k < |points| ==> value <= points[k])
    ensures (value >= s[|s| - 1]) <==> (forall k :: 0 <= k < |points| ==> value >= points[k])
    ensures s[0] <= s[|s| - 1]
  {
    Sorting.SortCorrect(points);
    forall k | 0 <= k < |points|
      ensures s[0] <= points[k] <= s[|s| - 1]
    {
      assert points[k] in points;
      Sorting.SortBounds(points, points[k]);
    }
    assert s[0] in multiset(points);
    assert s[|s| - 1] in multiset(points);
  }

  /** Scanning is monotone in the value. */
  lemma {:induction false} ScanMonotone(v1: real, v2: real, s: seq<real>, i: nat)
    requires Sorting.Sorted(s)
    requires i < |s| - 1
    requires s[i] < v1 <= v2 < s[|s| - 1]
    ensures Scan(v1, s, i) <= Scan(v2, s, i)
    decreases |s| - i
  {
    var step := 100.0 / ((|s| - 1) as real);
    var ii := i as real;
    if v1 <= s[i + 1] && v2 <= s[i + 1] {
      var d := s[i + 1] - s[i];
      DivMonoLe(v1 - s[i], v2 - s[i], d);
      ScanRange(v1, s, i);
      MulMonoLe(ii, ii, step);
      MulMonoLe((v1 - s[i]) / d, (v2 - s[i]) / d, step);
    } else if v1 <= s[i + 1] {
      var d := s[i + 1] - s[i];
      FractionInUnit(v1 - s[i], d);
      ScanRange(v1, s, i);
      ScanRange(v2, s, i + 1);
      assert step > 0.0;
      MulMonoLe((v1 - s[i]) / d, 1.0, step);
      assert Scan(v1, s, i) <= ii * step + step;
      assert ii * step + step == (ii + 1.0) * step;
      assert Scan(v2, s, i) == Scan(v2, s, i + 1);
    } else {
      ScanMonotone(v1, v2, s, i + 1);
    }
  }

  /** The percentile never decreases as the value grows. */
  lemma PercentileMonotone(v1: real, v2: real, points: seq<real>)
    requires v1 <= v2
    ensures Percentile(v1, points) <= Percentile(v2, points)
  {
    if |points| > 0 {
      var s := Sorting.Sort(points);
      Sorting.SortCorrect(points);
      PercentileEnds(v1, points, s);
      PercentileEnds(v2, points, s);
      if s[0] < v1 && v2 < s[|s| - 1] {
        ScanMonotone(v1, v2, s, 0);
      }
    }
  }

  /** Approximate male population reference points (already ascending). */
  const HeightPoints: seq<real> := [165.0, 168.0, 173.0, 178.0, 183.0, 188.0, 193.0]
  const WeightPoints: seq<real> := [60.0, 65.0, 72.0, 80.0, 90.0, 105.0, 120.0]
  const BmiPoints: seq<real> := [20.0, 21.0, 23.0, 25.0, 28.0, 32.0, 35.0]

  function HeightPercentile(heightCm: real): (r: real)
    ensures 0.0 <= r <= 100.0
  {
    Percentile(heightCm, HeightPoints)
  }

  function WeightPercentile(weightKg: real): (r: real)
    ensures 0.0 <= r <= 100.0
  {
    Percentile(weightKg, WeightPoints)
  }

  function BmiPercentile(bmi: real): (r: real)
    ensures 0.0 <= r <= 100.0
  {
    Percentile(bmi, BmiPoints)
  }

  datatype Percentiles = Percentiles(height: real, weight: real, bmi: real)

  function CalculatePercentiles(heightCm: real, weightKg: real, bmi: real): (p: Percentiles)
    ensures 0.0 <= p.height <= 100.0 && 0.0 <= p.weight <= 100.0 && 0.0 <= p.bmi <= 100.0
  {
    Percentiles(HeightPercentile(heightCm), WeightPercentile(weightKg), BmiPercentile(bmi))
  }

  datatype ValidationNote =
    | UnderweightSlimFit       // "BMI indicates underweight - slim fit recommended"
    | OverweightRelaxedFit     // "BMI indicates overweight - relaxed fit recommended"
    | SlightlyHighBmi          // "BMI slightly high - consider relaxed fit for comfort"
    | TallLongLengths          // "Height is tall - consider long lengths"
    | ShortSleeveShortening    // "Height is shorter - consider sleeve shortening"
    | BelowTenthPercentile
    | AboveNinetiethPercentile

  /** At most one BMI note, one height note and one percentile note, in that order. */
  function ValidationNotes(bmi: real, heightCm: real, p: Percentiles): (notes: seq<ValidationNote>)
    ensures |notes| <= 3
    ensures (UnderweightSlimFit in notes) <==> bmi < 18.5
    ensures (OverweightRelaxedFit in notes) <==> bmi > 30.0
    ensures (SlightlyHighBmi in notes) <==> 28.0 < bmi <= 30.0
    ensures (TallLongLengths in notes) <==> heightCm > 195.0
    ensures (ShortSleeveShortening in notes) <==> heightCm < 160.0
    ensures (BelowTenthPercentile in notes) <==> p.height < 10.0
    ensures (AboveNinetiethPercentile in notes) <==> p.height > 90.0
  {
    var bmiNotes :=
      if bmi < 18.5 then [UnderweightSlimFit]
      else if bmi > 30.0 then [OverweightRelaxedFit]
      else if bmi > 28.0 then [SlightlyHighBmi]
      else [];
    var heightNotes :=
      if heightCm > 195.0 then [TallLongLengths]
      else if heightCm < 160.0 then [ShortSleeveShortening]
      else [];
    var percentileNotes :=
      if p.height < 10.0 then [BelowTenthPercentile]
      else if p.height > 90.0 then [AboveNinetiethPercentile]
      else [];
    bmiNotes + heightNotes + percentileNotes
  }

  /** The validator's full analysis record; the Python code always reports it valid. */
  datatype Analysis = Analysis(
    heightCm: real, weightKg: real, bmi: real, ageEstimate: int,
    bodyType: BodyType, percentiles: Percentiles, notes: seq<ValidationNote>)

  function ValidateMeasurements(height: real, weight: real, unit: string): (a: Analysis)
    requires ToMetric(height, weight, unit).heightCm != 0.0
    ensures unit != "imperial" ==> a.heightCm == height && a.weightKg == weight
    ensures unit == "imperial" ==> a.heightCm == height * 2.54 && a.weightKg == weight * 0.453592
    ensures a.bmi == Bmi(a.heightCm, a.weightKg)
    ensures a.ageEstimate == EstimateAge(a.heightCm, a.weightKg, a.bmi)
    ensures 30 <= a.ageEstimate <= 42
    ensures a.bodyType == ClassifyBodyType(a.heightCm, a.weightKg, a.bmi)
    ensures a.percentiles == CalculatePercentiles(a.heightCm, a.weightKg, a.bmi)
    ensures a.notes == ValidationNotes(a.bmi, a.heightCm, a.percentiles)
  {
    var m := ToMetric(height, weight, unit);
    var bmi := Bmi(m.heightCm, m.weightKg);
    var p := CalculatePercentiles(m.heightCm, m.weightKg, bmi);
    Analysis(m.heightCm, m.weightKg, bmi, EstimateAge(m.heightCm, m.weightKg, bmi),
             ClassifyBodyType(m.heightCm, m.weightKg, bmi), p, ValidationNotes(bmi, m.heightCm, p))
  }
}
