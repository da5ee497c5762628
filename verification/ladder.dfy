/**
 * The three fit ladders that map the height-weight ratio to a two-digit base
 * size, the fit suffix, and the long-length override for heights over 200 cm.
 * The same ladders appear in the wedding engine and in the synthetic-data
 * generator of the ML engine.
 */
module SizeLadder {
  import opened Wrappers
  import Anthropometry

  /** A size code such as "42R", "46S" or "50L": a numeric base and one letter. */
  datatype SizeCode = SizeCode(base: int, letter: char)

  /** Threshold ladders; a ratio strictly below the k-th threshold gets step k. */
  const SlimThresholds: seq<real> := [0.8, 0.9, 1.0, 1.1]
  const RelaxedThresholds: seq<real> := [0.7, 0.8, 0.9, 1.0, 1.1]
  const RegularThresholds: seq<real> := [0.75, 0.85, 0.95, 1.05, 1.15, 1.25]

  function SlimBase(ratio: real): int {
    if ratio < 0.8 then 38
    else if ratio < 0.9 then 40
    else if ratio < 1.0 then 42
    else if ratio < 1.1 then 44
    else 46
  }

  function RelaxedBase(ratio: real): int {
    if ratio < 0.7 then 40
    else if ratio < 0.8 then 42
    else if ratio < 0.9 then 44
    else if ratio < 1.0 then 46
    else if ratio < 1.1 then 48
    else 50
  }

  function RegularBase(ratio: real): int {
    if ratio < 0.75 then 38
    else if ratio < 0.85 then 40
    else if ratio < 0.95 then 42
    else if ratio < 1.05 then 44
    else if ratio < 1.15 then 46
    else if ratio < 1.25 then 48
    else 50
  }

  /** "slim" and "relaxed" select their ladders; any other fit string uses the regular one. */
  function LadderBase(fit: string, ratio: real): (b: int)
    ensures 38 <= b <= 50 && b % 2 == 0
    ensures fit == "relaxed" ==> b >= 40
    ensures fit == "slim" ==> b <= 46
  {
    if fit == "slim" then SlimBase(ratio)
    else if fit == "relaxed" then RelaxedBase(ratio)
    else RegularBase(ratio)
  }

  function Thresholds(fit: string): seq<real> {
    if fit == "slim" then SlimThresholds
    else if fit == "relaxed" then RelaxedThresholds
    else RegularThresholds
  }

  function LowestBase(fit: string): int {
    if fit == "relaxed" then 40 else 38
  }

  /** How many thresholds the ratio has reached (threshold <= ratio). */
  function CountReached(ts: seq<real>, ratio: real): (n: nat)
    ensures n <= |ts|
  {
    if |ts| == 0 then 0
    else (if ts[0] <= ratio then 1 else 0) + CountReached(ts[1..], ratio)
  }

  /**
   * Reference reading of every ladder: the base is the lowest base plus one even
   * step per threshold the ratio has reached.
   */
  lemma LadderIsThresholdCount(fit: string, ratio: real)
    ensures LadderBase(fit, ratio) == LowestBase(fit) + 2 * CountReached(Thresholds(fit), ratio)
  {
    if fit == "slim" {
      SlimIsThresholdCount(ratio);
    } else if fit == "relaxed" {
      RelaxedIsThresholdCount(ratio);
    } else {
      RegularIsThresholdCount(ratio);
    }
  }

  lemma SlimIsThresholdCount(ratio: real)
    ensures SlimBase(ratio) == 38 + 2 * CountReached(SlimThresholds, ratio)
  {
    var ts := SlimThresholds;
    assert ts[4..] == [];
    CountStep(ts, 3, ratio);
    CountStep(ts, 2, ratio);
    CountStep(ts, 1, ratio);
    CountStep(ts, 0, ratio);
    assert ts[0..] == ts;
  }

  lemma RelaxedIsThresholdCount(ratio: real)
    ensures RelaxedBase(ratio) == 40 + 2 * CountReached(RelaxedThresholds, ratio)
  {
    var ts := RelaxedThresholds;
    assert ts[5..] == [];
    CountStep(ts, 4, ratio);
    CountStep(ts, 3, ratio);
    CountStep(ts, 2, ratio);
    CountStep(ts, 1, ratio);
    CountStep(ts, 0, ratio);
    assert ts[0..] == ts;
  }

  lemma RegularIsThresholdCount(ratio: real)
    ensures RegularBase(ratio) == 38 + 2 * CountReached(RegularThresholds, ratio)
  {
    var ts := RegularThresholds;
    assert ts[6..] == [];
    CountStep(ts, 5, ratio);
    CountStep(ts, 4, ratio);
    CountStep(ts, 3, ratio);
    CountStep(ts, 2, ratio);
    CountStep(ts, 1, ratio);
    CountStep(ts, 0, ratio);
    assert ts[0..] == ts;
  }

  lemma CountStep(ts: seq<real>, k: nat, ratio: real)
    requires k < |ts|
    ensures CountReached(ts[k..], ratio) ==
      (if ts[k] <= ratio then 1 else 0) + CountReached(ts[k + 1..], ratio)
  {
    assert ts[k..][1..] == ts[k + 1..];
  }

  lemma {:induction false} CountReachedMonotone(ts: seq<real>, r1: real, r2: real)
    requires r1 <= r2
    ensures CountReached(ts, r1) <= CountReached(ts, r2)
  {
    if |ts| > 0 {
      CountReachedMonotone(ts[1..], r1, r2);
    }
  }

  /** Every ladder is non-decreasing in the ratio, even, and within its band. */
  lemma LadderMonotone(fit: string, r1: real, r2: real)
    requires r1 <= r2
    ensures LadderBase(fit, r1) <= LadderBase(fit, r2)
    ensures LadderBase(fit, r1) % 2 == 0
    ensures LowestBase(fit) <= LadderBase(fit, r1) <= LowestBase(fit) + 2 * |Thresholds(fit)|
  {
    LadderIsThresholdCount(fit, r1);
    LadderIsThresholdCount(fit, r2);
    CountReachedMonotone(Thresholds(fit), r1, r2);
  }

  /**
   * The comparisons are strict, so a ratio exactly on the k-th threshold already
   * gets the size above it.
   */
  lemma BoundaryGoesUp(fit: string, k: nat)
    requires k < |Thresholds(fit)|
    ensures LadderBase(fit, Thresholds(fit)[k]) == LowestBase(fit) + 2 * (k + 1)
    ensures k > 0 ==> LadderBase(fit, Thresholds(fit)[k] - 0.01) == LowestBase(fit) + 2 * k
  {
  }

  /** The fit suffix: S for slim, R for everything else. */
  function FitLetter(fit: string): char {
    if fit == "slim" then 'S' else 'R'
  }

  /**
   * Size from the ladder plus the length rule: above 200 cm the last letter is
   * replaced by 'L'; 185-200 cm keeps the regular length.
   */
  function LadderSize(fit: string, heightCm: real, weightKg: real): (c: SizeCode)
    requires heightCm != 0.0
    ensures c.base == LadderBase(fit, Anthropometry.HeightWeightRatio(heightCm, weightKg))
    ensures c.letter == 'L' <==> heightCm > 200.0
    ensures heightCm <= 200.0 ==> c.letter == FitLetter(fit)
    ensures 38 <= c.base <= 50 && c.base % 2 == 0
  {
    var ratio := Anthropometry.HeightWeightRatio(heightCm, weightKg);
    LadderMonotone(fit, ratio, ratio);
    var code := SizeCode(LadderBase(fit, ratio), FitLetter(fit));
    if heightCm > 185.0 then
      if heightCm > 200.0 then SizeCode(code.base, 'L') else code
    else code
  }

  /** The ladders' top rung: 46 for slim, 50 otherwise. */
  function TopBase(fit: string): int {
    if fit == "slim" then 46 else 50
  }

  /** A ratio of at least 1.25 sits on every ladder's top rung. */
  lemma HighRatioIsTopRung(fit: string, ratio: real)
    requires ratio >= 1.25
    ensures LadderBase(fit, ratio) == TopBase(fit)
  {
  }

  /**
   * Consequence of the kilograms-per-metre ratio: anyone at least 7 cm tall with
   * a BMI of 18.5 or more is on the top rung of the ladder for their fit.
   */
  lemma AdultsGetTopRung(fit: string, heightCm: real, weightKg: real)
    requires heightCm >= 7.0
    requires Anthropometry.Bmi(heightCm, weightKg) >= 18.5
    ensures LadderSize(fit, heightCm, weightKg).base == TopBase(fit)
  {
    var b := Anthropometry.Bmi(heightCm, weightKg);
    var m := heightCm / 100.0;
    Anthropometry.RatioIsBmiTimesHeight(heightCm, weightKg);
    assert b * m >= 18.5 * m;
    HighRatioIsTopRung(fit, Anthropometry.HeightWeightRatio(heightCm, weightKg));
  }

  function DigitChar(d: int): char
    requires 0 <= d <= 9
  {
    ['0', '1', '2', '3', '4', '5', '6', '7', '8', '9'][d]
  }

  function DigitValue(c: char): Option<int> {
    if '0' <= c <= '9' then Some(c as int - '0' as int) else None
  }

  /** The size code as text, e.g. "42R". */
  function SizeText(c: SizeCode): (s: string)
    requires 10 <= c.base <= 99
    ensures |s| == 3 && s[2] == c.letter
  {
    [DigitChar(c.base / 10), DigitChar(c.base % 10), c.letter]
  }

  /** `int(size[:2])`: the two leading digits, or None when they are not digits. */
  function NumericPrefix(s: string): Option<int> {
    if |s| < 2 then None
    else match (DigitValue(s[0]), DigitValue(s[1]))
      case (Some(a), Some(b)) => Some(10 * a + b)
      case _ => None
  }

  /** Reading the base back from the size text gives the base. */
  lemma NumericPrefixRoundTrip(c: SizeCode)
    requires 10 <= c.base <= 99
    ensures NumericPrefix(SizeText(c)) == Some(c.base)
  {
    var s := SizeText(c);
    assert DigitValue(s[0]) == Some(c.base / 10);
    assert DigitValue(s[1]) == Some(c.base % 10);
  }

  /** Two codes with two-digit bases print alike only if they are equal. */
  lemma SizeTextInjective(c1: SizeCode, c2: SizeCode)
    requires 10 <= c1.base <= 99 && 10 <= c2.base <= 99
    requires SizeText(c1) == SizeText(c2)
    ensures c1 == c2
  {
    NumericPrefixRoundTrip(c1);
    NumericPrefixRoundTrip(c2);
  }
}
