/**
 * The group analyzer's advice: coordination recommendations, fitting
 * challenges (extreme measurements and size outliers around the median) and
 * timeline considerations. The number of days until the wedding is a
 * parameter; the Python code reads it from the clock.
 */
module GroupAdvice {
  import opened Wrappers
  import opened Wedding
  import opened WeddingGroups
  import GroupScores
  import SizeGroups
  import Sorting
  import Anthropometry

  // ---------------------------------------------------------------------------
  // Counting and the most common size

  /** Which side of a threshold a count looks at. */
  datatype Side = AtMost | AtLeast

  predicate OnSide(x: real, v: real, side: Side) {
    if side == AtMost then x <= v else x >= v
  }

  /** Number of values on the given side of `v`. */
  function CountSide(s: seq<real>, v: real, side: Side): (n: nat)
    ensures n <= |s|
  {
    if |s| == 0 then 0 else (if OnSide(s[0], v, side) then 1 else 0) + CountSide(s[1..], v, side)
  }

  lemma {:induction false} CountSideAppend(a: seq<real>, b: seq<real>, v: real, side: Side)
    ensures CountSide(a + b, v, side) == CountSide(a, v, side) + CountSide(b, v, side)
  {
    if |a| == 0 {
      assert a + b == b;
    } else {
      assert (a + b)[1..] == a[1..] + b;
      CountSideAppend(a[1..], b, v, side);
    }
  }

  /** Taking the same value out of two equal multisets leaves equal multisets. */
  lemma RemoveMatching(a: seq<real>, b: seq<real>, k: nat)
    requires |a| > 0 && k < |b| && b[k] == a[0] && multiset(a) == multiset(b)
    ensures multiset(a[1..]) == multiset(b[..k] + b[k + 1..])
  {
    var rest := b[..k] + b[k + 1..];
    assert b == b[..k] + [b[k]] + b[k + 1..];
    assert multiset(b) == multiset(rest) + multiset{b[k]};
    assert a == [a[0]] + a[1..];
    assert multiset(a) == multiset(a[1..]) + multiset{a[0]};
    forall x
      ensures multiset(a[1..])[x] == multiset(rest)[x]
    {
      assert multiset(a)[x] == multiset(a[1..])[x] + multiset{a[0]}[x];
      assert multiset(b)[x] == multiset(rest)[x] + multiset{b[k]}[x];
    }
  }

  /** Counting with one element taken out. */
  lemma CountSideRemove(b: seq<real>, k: nat, v: real, side: Side)
    requires k < |b|
    ensures CountSide(b, v, side) ==
      CountSide(b[..k] + b[k + 1..], v, side) + (if OnSide(b[k], v, side) then 1 else 0)
  {
    assert b == b[..k] + [b[k]] + b[k + 1..];
    CountSideAppend(b[..k] + [b[k]], b[k + 1..], v, side);
    CountSideAppend(b[..k], [b[k]], v, side);
    CountSideAppend(b[..k], b[k + 1..], v, side);
  }

  /** Counting does not depend on the order of the values. */
  lemma {:induction false} CountSidePermutation(a: seq<real>, b: seq<real>, v: real, side: Side)
    requires multiset(a) == multiset(b)
    ensures CountSide(a, v, side) == CountSide(b, v, side)
    decreases |a|
  {
    if |a| == 0 {
      assert |multiset(b)| == 0;
    } else {
      assert a[0] in multiset(b);
      var k :| 0 <= k < |b| && b[k] == a[0];
      RemoveMatching(a, b, k);
      CountSidePermutation(a[1..], b[..k] + b[k + 1..], v, side);
      CountSideRemove(b, k, v, side);
    }
  }

  /** Occurrences of `v` in `xs`, Counter-style. */
  function Occurrences(xs: seq<int>, v: int): nat {
    if |xs| == 0 then 0 else (if xs[0] == v then 1 else 0) + Occurrences(xs[1..], v)
  }

  /** A value that occurs is an element. */
  lemma {:induction false} OccurrencesPositive(xs: seq<int>, v: int)
    requires Occurrences(xs, v) > 0
    ensures v in xs
  {
    if xs[0] != v {
      OccurrencesPositive(xs[1..], v);
    }
  }

  /** Index of the first element of xs[..i] whose value occurs most often in xs. */
  function FirstMostCommon(xs: seq<int>, i: nat): (r: nat)
    requires 1 <= i <= |xs|
    ensures r < i
  {
    if i == 1 then 0
    else
      var best := FirstMostCommon(xs, i - 1);
      if Occurrences(xs, xs[i - 1]) > Occurrences(xs, xs[best]) then i - 1 else best
  }

  /**
   * No element of the prefix occurs more often than the chosen one, and every
   * element before it occurs strictly less often.
   */
  lemma {:induction false} FirstMostCommonCorrect(xs: seq<int>, i: nat)
    requires 1 <= i <= |xs|
    ensures forall j :: 0 <= j < i ==>
      Occurrences(xs, xs[j]) <= Occurrences(xs, xs[FirstMostCommon(xs, i)])
    ensures forall j :: 0 <= j < FirstMostCommon(xs, i) ==>
      Occurrences(xs, xs[j]) < Occurrences(xs, xs[FirstMostCommon(xs, i)])
  {
    if i > 1 {
      FirstMostCommonCorrect(xs, i - 1);
    }
  }

  /** `Counter(sizes).most_common(1)[0][0]`. */
  function Mode(xs: seq<int>): (m: int)
    requires |xs| > 0
    ensures m in xs
    ensures forall j :: 0 <= j < |xs| ==> Occurrences(xs, xs[j]) <= Occurrences(xs, m)
  {
    FirstMostCommonCorrect(xs, |xs|);
    xs[FirstMostCommon(xs, |xs|)]
  }

  /**
   * The mode occurs at least as often as any value, and among values that
   * occur as often it is the one seen first: no earlier element ties with it.
   */
  lemma ModeIsFirstMostCommon(xs: seq<int>, v: int)
    requires |xs| > 0
    ensures Mode(xs) in xs
    ensures Occurrences(xs, v) <= Occurrences(xs, Mode(xs))
    ensures forall j :: 0 <= j < FirstMostCommon(xs, |xs|) ==>
      xs[j] != Mode(xs) && Occurrences(xs, xs[j]) < Occurrences(xs, Mode(xs))
  {
    FirstMostCommonCorrect(xs, |xs|);
    if Occurrences(xs, v) > 0 {
      OccurrencesPositive(xs, v);
      var j :| 0 <= j < |xs| && xs[j] == v;
    }
  }

  // ---------------------------------------------------------------------------
  // Median and size outliers

  /** The numeric sizes as reals, in member order. */
  function RealBases(recs: seq<MemberRec>): (xs: seq<real>)
    ensures |xs| == |recs|
    ensures forall i :: 0 <= i < |recs| ==> xs[i] == Numeric(recs[i]) as real
  {
    if |recs| == 0 then [] else [Numeric(recs[0]) as real] + RealBases(recs[1..])
  }

  /** The middle value of a sorted sequence, or the mean of the two middle values. */
  function Middle(s: seq<real>): real
    requires |s| > 0
  {
    var n := |s|;
    if n % 2 == 1 then s[n / 2] else (s[n / 2 - 1] + s[n / 2]) / 2.0
  }

  /** The middle of a sorted copy lies between two of the original values. */
  lemma MiddleBetween(xs: seq<real>, s: seq<real>)
    requires |s| > 0 && Sorting.Sorted(s) && multiset(s) == multiset(xs)
    ensures exists i, j :: 0 <= i < |xs| && 0 <= j < |xs| && xs[i] <= Middle(s) <= xs[j]
  {
    var n := |s|;
    var lo := if n % 2 == 1 then n / 2 else n / 2 - 1;
    assert s[lo] in multiset(xs) && s[n / 2] in multiset(xs);
    assert s[lo] <= Middle(s) <= s[n / 2];
    var i :| 0 <= i < |xs| && xs[i] == s[lo];
    var j :| 0 <= j < |xs| && xs[j] == s[n / 2];
  }

  /** `statistics.median`: the middle of the sorted values. */
  function Median(xs: seq<real>): (m: real)
    requires |xs| > 0
    ensures exists i, j :: 0 <= i < |xs| && 0 <= j < |xs| && xs[i] <= m <= xs[j]
  {
    Sorting.SortCorrect(xs);
    MiddleBetween(xs, Sorting.Sort(xs));
    Middle(Sorting.Sort(xs))
  }

  lemma {:induction false} CountPrefix(s: seq<real>, k: nat, v: real, side: Side)
    requires k <= |s|
    requires forall i :: 0 <= i < k ==> OnSide(s[i], v, side)
    ensures CountSide(s, v, side) >= k
  {
    if k > 0 {
      CountPrefix(s[1..], k - 1, v, side);
    }
  }

  lemma {:induction false} CountSuffix(s: seq<real>, k: nat, v: real, side: Side)
    requires k <= |s|
    requires forall i :: |s| - k <= i < |s| ==> OnSide(s[i], v, side)
    ensures CountSide(s, v, side) >= k
  {
    if k > 0 {
      var init := s[..|s| - 1];
      CountSuffix(init, k - 1, v, side);
      assert s == init + [s[|s| - 1]];
      CountSideAppend(init, [s[|s| - 1]], v, side);
    }
  }

  lemma MiddleLowerHalf(s: seq<real>)
    requires |s| > 0 && Sorting.Sorted(s)
    ensures 2 * CountSide(s, Middle(s), AtMost) >= |s|
  {
    var n := |s|;
    var mid := if n % 2 == 1 then n / 2 else n / 2 - 1;
    assert s[mid] <= Middle(s);
    assert forall i :: 0 <= i <= mid ==> OnSide(s[i], Middle(s), AtMost);
    CountPrefix(s, mid + 1, Middle(s), AtMost);
  }

  lemma MiddleUpperHalf(s: seq<real>)
    requires |s| > 0 && Sorting.Sorted(s)
    ensures 2 * CountSide(s, Middle(s), AtLeast) >= |s|
  {
    var n := |s|;
    assert Middle(s) <= s[n / 2];
    assert forall i :: n / 2 <= i < n ==> OnSide(s[i], Middle(s), AtLeast);
    CountSuffix(s, n - n / 2, Middle(s), AtLeast);
  }

  /** At least half of the values are at most the median, and at least half at least it. */
  lemma MedianSplits(xs: seq<real>)
    requires |xs| > 0
    ensures 2 * CountSide(xs, Median(xs), AtMost) >= |xs|
    ensures 2 * CountSide(xs, Median(xs), AtLeast) >= |xs|
  {
    var s := Sorting.Sort(xs);
    Sorting.SortCorrect(xs);
    MiddleLowerHalf(s);
    MiddleUpperHalf(s);
    CountSidePermutation(xs, s, Middle(s), AtMost);
    CountSidePermutation(xs, s, Middle(s), AtLeast);
  }

  /** The median lies between any common bounds of the values. */
  lemma MedianWithinBounds(xs: seq<real>, lo: real, hi: real)
    requires |xs| > 0
    requires forall i :: 0 <= i < |xs| ==> lo <= xs[i] <= hi
    ensures lo <= Median(xs) <= hi
  {
    var s := Sorting.Sort(xs);
    Sorting.SortCorrect(xs);
    var n := |s|;
    assert s[n / 2] in multiset(xs);
    if n % 2 == 0 {
      assert s[n / 2 - 1] in multiset(xs);
    }
  }

  /** One fitting challenge. */
  datatype Challenge =
    | ExtremeHeight(name: string, height: real)
    | ExtremeWeight(name: string, weight: real)
    | SizeOutlier(name: string, size: int)

  /** Limits on the entered height and weight; values outside are flagged. */
  predicate ExtremeHeightValue(h: real) { h < 160.0 || h > 200.0 }
  predicate ExtremeWeightValue(w: real) { w < 55.0 || w > 120.0 }

  /** Extreme-measurement challenges, member by member, height before weight. */
  function MeasurementChallenges(recs: seq<MemberRec>): (cs: seq<Challenge>)
    ensures forall i :: 0 <= i < |recs| && ExtremeHeightValue(recs[i].member.height) ==>
      ExtremeHeight(recs[i].member.name, recs[i].member.height) in cs
    ensures forall i :: 0 <= i < |recs| && ExtremeWeightValue(recs[i].member.weight) ==>
      ExtremeWeight(recs[i].member.name, recs[i].member.weight) in cs
    ensures forall c :: c in cs ==> !c.SizeOutlier?
    ensures forall c :: c in cs && c.ExtremeHeight? ==>
      exists i :: 0 <= i < |recs| && recs[i].member.name == c.name &&
        recs[i].member.height == c.height && ExtremeHeightValue(c.height)
    ensures forall c :: c in cs && c.ExtremeWeight? ==>
      exists i :: 0 <= i < |recs| && recs[i].member.name == c.name &&
        recs[i].member.weight == c.weight && ExtremeWeightValue(c.weight)
  {
    if |recs| == 0 then []
    else
      var m := recs[0].member;
      var rest := MeasurementChallenges(recs[1..]);
      assert forall i :: 1 <= i < |recs| ==> recs[i] == recs[1..][i - 1];
      (if ExtremeHeightValue(m.height) then [ExtremeHeight(m.name, m.height)] else []) +
      (if ExtremeWeightValue(m.weight) then [ExtremeWeight(m.name, m.weight)] else []) +
      rest
  }

  /** Members whose size is more than 3 away from the median, in member order. */
  function Outliers(recs: seq<MemberRec>, median: real): (cs: seq<Challenge>)
    ensures forall i :: 0 <= i < |recs| && Anthropometry.Abs(Numeric(recs[i]) as real - median) > 3.0 ==>
      SizeOutlier(recs[i].member.name, Numeric(recs[i])) in cs
    ensures (forall i :: 0 <= i < |recs| ==> Anthropometry.Abs(Numeric(recs[i]) as real - median) <= 3.0) ==>
      cs == []
    ensures forall c :: c in cs ==> c.SizeOutlier?
    ensures forall c :: c in cs ==>
      exists i :: 0 <= i < |recs| && recs[i].member.name == c.name && Numeric(recs[i]) == c.size &&
        Anthropometry.Abs(c.size as real - median) > 3.0
  {
    if |recs| == 0 then []
    else
      var r := recs[0];
      var rest := Outliers(recs[1..], median);
      assert forall i :: 1 <= i < |recs| ==> recs[i] == recs[1..][i - 1];
      (if Anthropometry.Abs(Numeric(r) as real - median) > 3.0
       then [SizeOutlier(r.member.name, Numeric(r))] else []) + rest
  }

  /** `_identify_fitting_challenges`: extreme measurements, then size outliers around the median. */
  function FittingChallenges(recs: seq<MemberRec>): (cs: seq<Challenge>)
    ensures MeasurementChallenges(recs) <= cs
    ensures |recs| == 0 ==> cs == MeasurementChallenges(recs)
    ensures |recs| > 0 ==> cs[|MeasurementChallenges(recs)|..] == Outliers(recs, Median(RealBases(recs)))
  {
    MeasurementChallenges(recs) +
    (if |recs| > 0 then Outliers(recs, Median(RealBases(recs))) else [])
  }

  /** A group whose sizes span at most 3 has no size outliers. */
  lemma NarrowGroupHasNoOutliers(recs: seq<MemberRec>)
    requires GroupScores.SizeRange(recs) <= 3
    ensures forall c :: c in FittingChallenges(recs) ==> !c.SizeOutlier?
  {
    if |recs| > 0 {
      var xs := RealBases(recs);
      var lo := GroupScores.MinOf(GroupScores.Bases(recs));
      var hi := GroupScores.MaxOf(GroupScores.Bases(recs));
      MedianWithinBounds(xs, lo as real, hi as real);
      var m := Median(xs);
      assert forall i :: 0 <= i < |recs| ==> Anthropometry.Abs(Numeric(recs[i]) as real - m) <= 3.0;
      assert Outliers(recs, m) == [];
    }
  }

  // ---------------------------------------------------------------------------
  // Coordination recommendations

  /** One coordination recommendation. */
  datatype Advice =
    | NarrowRange(lo: int, hi: int)   // sizes span more than 4
    | BulkMode(count: nat, size: int) // the most common size and its count
    | GroomConsultation               // the first groom's confidence is below 0.8
    | FormalCohesion
    | BlackTieSlimFit
    | OrderSoon                       // fewer than 30 days left
    | PlanFittings                    // more than 180 days left

  /** Range and bulk advice from the numeric sizes, for a non-empty group only. */
  function SizeAdvice(xs: seq<int>): (a: seq<Advice>)
    ensures |xs| == 0 ==> a == []
    ensures |a| <= 2
    ensures forall x :: x in a ==> x.NarrowRange? || x.BulkMode?
  {
    if |xs| == 0 then []
    else
      var lo := GroupScores.MinOf(xs);
      var hi := GroupScores.MaxOf(xs);
      (if hi - lo > 4 then [NarrowRange(lo, hi)] else []) +
      [BulkMode(Occurrences(xs, Mode(xs)), Mode(xs))]
  }

  function RoleAdvice(recs: seq<MemberRec>): (a: seq<Advice>)
    ensures GroomConsultation in a <==>
      SizeGroups.FirstGroom(recs).Some? && SizeGroups.FirstGroom(recs).value.confidence < 0.8
    ensures forall x :: x in a ==> x == GroomConsultation
  {
    var g := SizeGroups.FirstGroom(recs);
    if g.Some? && g.value.confidence < 0.8 then [GroomConsultation] else []
  }

  function StyleAdvice(style: Style): (a: seq<Advice>)
    ensures FormalCohesion in a <==> style == Formal
    ensures BlackTieSlimFit in a <==> style == BlackTie
    ensures forall x :: x in a ==> x == FormalCohesion || x == BlackTieSlimFit
  {
    if style == Formal then [FormalCohesion]
    else if style == BlackTie then [BlackTieSlimFit]
    else []
  }

  function TimingAdvice(daysUntil: int): (a: seq<Advice>)
    ensures OrderSoon in a <==> daysUntil < 30
    ensures PlanFittings in a <==> daysUntil > 180
    ensures forall x :: x in a ==> x == OrderSoon || x == PlanFittings
  {
    if daysUntil < 30 then [OrderSoon]
    else if daysUntil > 180 then [PlanFittings]
    else []
  }

  /** The range advice names the smallest and largest size, and is given exactly when they differ by more than 4. */
  lemma SizeAdviceRange(xs: seq<int>)
    requires |xs| > 0
    ensures NarrowRange(GroupScores.MinOf(xs), GroupScores.MaxOf(xs)) in SizeAdvice(xs) <==>
      GroupScores.MaxOf(xs) - GroupScores.MinOf(xs) > 4
    ensures forall x :: x in SizeAdvice(xs) && x.NarrowRange? ==>
      x.lo == GroupScores.MinOf(xs) && x.hi == GroupScores.MaxOf(xs)
  {
  }

  /** The bulk advice comes last and names the most common size with its count. */
  lemma SizeAdviceBulk(xs: seq<int>)
    requires |xs| > 0
    ensures var a := SizeAdvice(xs);
      |a| >= 1 && a[|a| - 1] == BulkMode(Occurrences(xs, Mode(xs)), Mode(xs))
    ensures forall x :: x in SizeAdvice(xs) && x.BulkMode? ==>
      x.size == Mode(xs) && x.count == Occurrences(xs, x.size)
  {
  }

  /** Advice that is not about sizes comes from one of the three later parts. */
  lemma AdviceParts(x: Advice, sizes: seq<Advice>, roles: seq<Advice>, styles: seq<Advice>, timing: seq<Advice>)
    requires !x.NarrowRange? && !x.BulkMode?
    requires forall y :: y in sizes ==> y.NarrowRange? || y.BulkMode?
    ensures x in sizes + (roles + styles + timing) <==> x in roles || x in styles || x in timing
  {
  }

  /** Size advice followed by advice that mentions no size: the latter is exactly the advice without a size. */
  lemma SizePartsFirst(sizes: seq<Advice>, rest: seq<Advice>)
    requires forall y :: y in sizes ==> y.NarrowRange? || y.BulkMode?
    requires forall y :: y in rest ==> !y.NarrowRange? && !y.BulkMode?
    ensures forall x :: x in sizes + rest ==> (x in rest <==> !x.NarrowRange? && !x.BulkMode?)
  {
  }

  /** `_generate_coordination_recommendations`: size, role, style, then timing advice. */
  function CoordinationRecommendations(recs: seq<MemberRec>, style: Style, daysUntil: int): (a: seq<Advice>)
    ensures |a| <= 5
    ensures SizeAdvice(GroupScores.Bases(recs)) <= a
  {
    SizeAdvice(GroupScores.Bases(recs)) + (RoleAdvice(recs) + StyleAdvice(style) + TimingAdvice(daysUntil))
  }

  /** The recommendations are the size advice followed by advice that mentions no size. */
  lemma AdviceSplit(recs: seq<MemberRec>, style: Style, daysUntil: int)
    ensures var rest := RoleAdvice(recs) + StyleAdvice(style) + TimingAdvice(daysUntil);
      && CoordinationRecommendations(recs, style, daysUntil) == SizeAdvice(GroupScores.Bases(recs)) + rest
      && forall x :: x in CoordinationRecommendations(recs, style, daysUntil) ==>
           (x in rest <==> !x.NarrowRange? && !x.BulkMode?)
  {
    var roles := RoleAdvice(recs);
    var styles := StyleAdvice(style);
    var timing := TimingAdvice(daysUntil);
    assert forall y :: y in roles + styles + timing ==> y in roles || y in styles || y in timing;
    SizePartsFirst(SizeAdvice(GroupScores.Bases(recs)), roles + styles + timing);
  }

  /** At most five recommendations, the size advice first. */
  lemma AdviceShape(recs: seq<MemberRec>, style: Style, daysUntil: int)
    ensures |CoordinationRecommendations(recs, style, daysUntil)| <= 5
    ensures SizeAdvice(GroupScores.Bases(recs)) <= CoordinationRecommendations(recs, style, daysUntil)
  {
  }

  /** An empty group gets no size advice. */
  lemma EmptyGroupNoSizeAdvice(recs: seq<MemberRec>, style: Style, daysUntil: int)
    requires |recs| == 0
    ensures forall x :: x in CoordinationRecommendations(recs, style, daysUntil) ==>
      !x.NarrowRange? && !x.BulkMode?
  {
  }

  /**
   * The range advice is given, with the smallest and largest size, exactly
   * when the sizes of a non-empty group differ by more than 4.
   */
  lemma RangeAdviceCorrect(recs: seq<MemberRec>, style: Style, daysUntil: int)
    requires |recs| > 0
    ensures var xs := GroupScores.Bases(recs);
      (NarrowRange(GroupScores.MinOf(xs), GroupScores.MaxOf(xs)) in CoordinationRecommendations(recs, style, daysUntil)
       <==> GroupScores.SizeRange(recs) > 4)
    ensures var xs := GroupScores.Bases(recs);
      forall x :: x in CoordinationRecommendations(recs, style, daysUntil) && x.NarrowRange? ==>
        x.lo == GroupScores.MinOf(xs) && x.hi == GroupScores.MaxOf(xs)
  {
    AdviceSplit(recs, style, daysUntil);
    SizeAdviceRange(GroupScores.Bases(recs));
  }

  /** A non-empty group always gets bulk advice naming the most common size and its count. */
  lemma BulkAdviceCorrect(recs: seq<MemberRec>, style: Style, daysUntil: int)
    requires |recs| > 0
    ensures var xs := GroupScores.Bases(recs);
      BulkMode(Occurrences(xs, Mode(xs)), Mode(xs)) in CoordinationRecommendations(recs, style, daysUntil)
    ensures var xs := GroupScores.Bases(recs);
      forall x :: x in CoordinationRecommendations(recs, style, daysUntil) && x.BulkMode? ==>
        x.size == Mode(xs) && x.count == Occurrences(xs, x.size)
  {
    AdviceSplit(recs, style, daysUntil);
    var size := SizeAdvice(GroupScores.Bases(recs));
    SizeAdviceBulk(GroupScores.Bases(recs));
    assert size[|size| - 1] in size;
  }

  /** The consultation advice is given exactly when the first groom's confidence is below 0.8. */
  lemma GroomAdviceCorrect(recs: seq<MemberRec>, style: Style, daysUntil: int)
    ensures GroomConsultation in CoordinationRecommendations(recs, style, daysUntil) <==>
      SizeGroups.FirstGroom(recs).Some? && SizeGroups.FirstGroom(recs).value.confidence < 0.8
  {
    var styles := StyleAdvice(style);
    var timing := TimingAdvice(daysUntil);
    AdviceParts(GroomConsultation, SizeAdvice(GroupScores.Bases(recs)), RoleAdvice(recs), styles, timing);
    assert GroomConsultation !in styles && GroomConsultation !in timing;
  }

  /** Style advice exactly for formal and black-tie weddings. */
  lemma StyleAdviceCorrect(recs: seq<MemberRec>, style: Style, daysUntil: int)
    ensures FormalCohesion in CoordinationRecommendations(recs, style, daysUntil) <==> style == Formal
    ensures BlackTieSlimFit in CoordinationRecommendations(recs, style, daysUntil) <==> style == BlackTie
  {
    var roles := RoleAdvice(recs);
    var timing := TimingAdvice(daysUntil);
    var sizes := SizeAdvice(GroupScores.Bases(recs));
    AdviceParts(FormalCohesion, sizes, roles, StyleAdvice(style), timing);
    AdviceParts(BlackTieSlimFit, sizes, roles, StyleAdvice(style), timing);
    assert FormalCohesion !in roles && FormalCohesion !in timing;
    assert BlackTieSlimFit !in roles && BlackTieSlimFit !in timing;
  }

  /** Timing advice exactly under 30 days or over 180 days. */
  lemma TimingAdviceCorrect(recs: seq<MemberRec>, style: Style, daysUntil: int)
    ensures OrderSoon in CoordinationRecommendations(recs, style, daysUntil) <==> daysUntil < 30
    ensures PlanFittings in CoordinationRecommendations(recs, style, daysUntil) <==> daysUntil > 180
  {
    var roles := RoleAdvice(recs);
    var styles := StyleAdvice(style);
    var sizes := SizeAdvice(GroupScores.Bases(recs));
    AdviceParts(OrderSoon, sizes, roles, styles, TimingAdvice(daysUntil));
    AdviceParts(PlanFittings, sizes, roles, styles, TimingAdvice(daysUntil));
    assert OrderSoon !in roles && OrderSoon !in styles;
    assert PlanFittings !in roles && PlanFittings !in styles;
  }

  // ---------------------------------------------------------------------------
  // Timeline considerations

  datatype TimelineNote =
    | OverAYear | SixMonths | ThreeMonths | OneMonth | UnderAMonth
    | SummerFabrics | WinterFabrics
    | FormalAlterationTime | BlackTieAccessories

  /** The planning band for the days left: one of five, further by one for each cut-off passed. */
  function TimelineBand(daysUntil: int): (n: TimelineNote)
    ensures n in {OverAYear, SixMonths, ThreeMonths, OneMonth, UnderAMonth}
    ensures BandRank(n) == (if daysUntil > 30 then 1 else 0) + (if daysUntil > 90 then 1 else 0) +
                           (if daysUntil > 180 then 1 else 0) + (if daysUntil > 365 then 1 else 0)
  {
    if daysUntil > 365 then OverAYear
    else if daysUntil > 180 then SixMonths
    else if daysUntil > 90 then ThreeMonths
    else if daysUntil > 30 then OneMonth
    else UnderAMonth
  }

  predicate IsBand(n: TimelineNote) {
    n.OverAYear? || n.SixMonths? || n.ThreeMonths? || n.OneMonth? || n.UnderAMonth?
  }

  /** Position of a band from nearest (0) to furthest (4). */
  function BandRank(n: TimelineNote): nat {
    match n
    case UnderAMonth => 0
    case OneMonth => 1
    case ThreeMonths => 2
    case SixMonths => 3
    case _ => 4
  }

  /** More days left never gives a nearer band. */
  lemma TimelineBandMonotone(d1: int, d2: int)
    requires d1 <= d2
    ensures BandRank(TimelineBand(d1)) <= BandRank(TimelineBand(d2))
  {
  }

  /** `_analyze_timeline_considerations`: the band, then the season note, then the style note. */
  function TimelineConsiderations(details: Details, daysUntil: int): (notes: seq<TimelineNote>)
    ensures 1 <= |notes| <= 3
    ensures notes[0] == TimelineBand(daysUntil)
    ensures forall i :: 1 <= i < |notes| ==> !IsBand(notes[i])
    ensures SummerFabrics in notes <==> details.season == "summer"
    ensures WinterFabrics in notes <==> details.season == "winter"
    ensures FormalAlterationTime in notes <==> details.style == Formal
    ensures BlackTieAccessories in notes <==> details.style == BlackTie
  {
    var season :=
      if details.season == "summer" then [SummerFabrics]
      else if details.season == "winter" then [WinterFabrics]
      else [];
    var style :=
      if details.style == Formal then [FormalAlterationTime]
      else if details.style == BlackTie then [BlackTieAccessories]
      else [];
    [TimelineBand(daysUntil)] + season + style
  }

  /**
   * The timeline notes agree with the coordination advice: "order soon"
   * (under 30 days) falls in the under-a-month band, and "plenty of time"
   * (over 180 days) in the six-month or over-a-year band.
   */
  lemma TimelineAgreesWithAdvice(recs: seq<MemberRec>, details: Details, daysUntil: int)
    ensures OrderSoon in CoordinationRecommendations(recs, details.style, daysUntil) ==>
      TimelineConsiderations(details, daysUntil)[0] == UnderAMonth
    ensures PlanFittings in CoordinationRecommendations(recs, details.style, daysUntil) ==>
      TimelineConsiderations(details, daysUntil)[0] in {SixMonths, OverAYear}
  {
    TimingAdviceCorrect(recs, details.style, daysUntil);
  }
}
