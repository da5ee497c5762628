/**
 * Size groups of a wedding party: members grouped by their size code in order
 * of first appearance, the size distribution, the bulk-order groups with their
 * savings, and the priority order (first groom, then groups largest first).
 */
module SizeGroups {
  import opened Wrappers
  import opened Wedding
  import opened WeddingGroups
  import opened SizeLadder

  datatype SizeGroup = SizeGroup(size: SizeCode, members: seq<MemberRec>)

  /** Number of members whose size code is `k`; recursion on the last member. */
  function CountSize(recs: seq<MemberRec>, k: SizeCode): (n: nat)
    ensures n <= |recs|
  {
    if |recs| == 0 then 0
    else CountSize(recs[..|recs| - 1], k) + (if recs[|recs| - 1].size == k then 1 else 0)
  }

  /** Members of the groups keyed `k` (at most one group when the keys are distinct). */
  function GroupCount(gs: seq<SizeGroup>, k: SizeCode): nat {
    if |gs| == 0 then 0
    else (if gs[0].size == k then |gs[0].members| else 0) + GroupCount(gs[1..], k)
  }

  function Flatten(gs: seq<SizeGroup>): seq<MemberRec> {
    if |gs| == 0 then [] else gs[0].members + Flatten(gs[1..])
  }

  function Keys(gs: seq<SizeGroup>): seq<SizeCode> {
    if |gs| == 0 then [] else [gs[0].size] + Keys(gs[1..])
  }

  /** Keys are distinct, groups are non-empty, and members carry their group's key. */
  predicate Keyed(gs: seq<SizeGroup>) {
    DistinctSizes(gs) && NonEmptyGroups(gs) && MembersMatch(gs)
  }

  predicate DistinctSizes(gs: seq<SizeGroup>) {
    forall i, j :: 0 <= i < j < |gs| ==> gs[i].size != gs[j].size
  }

  predicate NonEmptyGroups(gs: seq<SizeGroup>) {
    forall i :: 0 <= i < |gs| ==> |gs[i].members| > 0
  }

  predicate MembersMatch(gs: seq<SizeGroup>) {
    forall i, m :: 0 <= i < |gs| && m in gs[i].members ==> m.size == gs[i].size
  }

  /** Files one member under its size, opening a new group at the end for a new size. */
  function AddToGroups(gs: seq<SizeGroup>, r: MemberRec): (res: seq<SizeGroup>)
    ensures |res| == |gs| || |res| == |gs| + 1
    ensures forall i :: 0 <= i < |gs| ==> res[i].size == gs[i].size
    ensures |res| == |gs| + 1 ==> res[|gs|] == SizeGroup(r.size, [r])
    ensures |res| == |gs| + 1 <==> forall i :: 0 <= i < |gs| ==> gs[i].size != r.size
  {
    if |gs| == 0 then [SizeGroup(r.size, [r])]
    else if gs[0].size == r.size then [SizeGroup(gs[0].size, gs[0].members + [r])] + gs[1..]
    else
      var rest := AddToGroups(gs[1..], r);
      assert forall i :: 1 <= i < |gs| ==> gs[i] == gs[1..][i - 1];
      [gs[0]] + rest
  }

  lemma {:induction false} AddToGroupsKeyed(gs: seq<SizeGroup>, r: MemberRec)
    requires Keyed(gs)
    ensures Keyed(AddToGroups(gs, r))
  {
    AddToGroupsDistinct(gs, r);
    AddToGroupsNonEmpty(gs, r);
    AddToGroupsMatch(gs, r);
  }

  /** Filing a member never creates a second group for a size. */
  lemma {:induction false} AddToGroupsDistinct(gs: seq<SizeGroup>, r: MemberRec)
    requires DistinctSizes(gs)
    ensures DistinctSizes(AddToGroups(gs, r))
  {
    var res := AddToGroups(gs, r);
    if |gs| > 0 && gs[0].size == r.size {
      assert forall i :: 1 <= i < |res| ==> res[i] == gs[i];
    } else if |gs| > 0 {
      var tail := gs[1..];
      assert DistinctSizes(tail) by {
        assert forall i :: 0 <= i < |tail| ==> tail[i] == gs[i + 1];
      }
      AddToGroupsDistinct(tail, r);
      var rest := AddToGroups(tail, r);
      assert res == [gs[0]] + rest;
      forall j | 0 <= j < |rest|
        ensures rest[j].size != gs[0].size
      {
        if j < |tail| {
          assert rest[j].size == gs[j + 1].size;
        }
      }
      assert forall i :: 1 <= i < |res| ==> res[i] == rest[i - 1];
    }
  }

  /** Filing a member keeps every group non-empty. */
  lemma {:induction false} AddToGroupsNonEmpty(gs: seq<SizeGroup>, r: MemberRec)
    requires NonEmptyGroups(gs)
    ensures NonEmptyGroups(AddToGroups(gs, r))
  {
    var res := AddToGroups(gs, r);
    if |gs| > 0 && gs[0].size == r.size {
      assert forall i :: 1 <= i < |res| ==> res[i] == gs[i];
    } else if |gs| > 0 {
      var tail := gs[1..];
      assert NonEmptyGroups(tail) by {
        assert forall i :: 0 <= i < |tail| ==> tail[i] == gs[i + 1];
      }
      AddToGroupsNonEmpty(tail, r);
      var rest := AddToGroups(tail, r);
      assert res == [gs[0]] + rest;
      assert forall i :: 1 <= i < |res| ==> res[i] == rest[i - 1];
    }
  }

  /** Filing a member keeps every member under its own size. */
  lemma {:induction false} AddToGroupsMatch(gs: seq<SizeGroup>, r: MemberRec)
    requires MembersMatch(gs)
    ensures MembersMatch(AddToGroups(gs, r))
  {
    var res := AddToGroups(gs, r);
    if |gs| > 0 && gs[0].size == r.size {
      assert forall i :: 1 <= i < |res| ==> res[i] == gs[i];
      assert forall m :: m in res[0].members ==> m in gs[0].members || m == r;
    } else if |gs| > 0 {
      var tail := gs[1..];
      assert MembersMatch(tail) by {
        assert forall i :: 0 <= i < |tail| ==> tail[i] == gs[i + 1];
      }
      AddToGroupsMatch(tail, r);
      var rest := AddToGroups(tail, r);
      assert res == [gs[0]] + rest;
      assert forall i :: 1 <= i < |res| ==> res[i] == rest[i - 1];
    }
  }

  lemma {:induction false} AddToGroupsFlatten(gs: seq<SizeGroup>, r: MemberRec)
    ensures multiset(Flatten(AddToGroups(gs, r))) == multiset(Flatten(gs)) + multiset{r}
  {
    var res := AddToGroups(gs, r);
    if |gs| == 0 {
      assert Flatten(res) == [r] + Flatten([]);
    } else if gs[0].size == r.size {
      assert res[1..] == gs[1..];
      assert Flatten(res) == (gs[0].members + [r]) + Flatten(gs[1..]);
    } else {
      AddToGroupsFlatten(gs[1..], r);
      assert res[1..] == AddToGroups(gs[1..], r);
    }
  }

  lemma {:induction false} AddToGroupsCount(gs: seq<SizeGroup>, r: MemberRec, k: SizeCode)
    ensures GroupCount(AddToGroups(gs, r), k) == GroupCount(gs, k) + (if r.size == k then 1 else 0)
  {
    var res := AddToGroups(gs, r);
    if |gs| == 0 {
      assert res[1..] == [];
    } else if gs[0].size == r.size {
      assert res[1..] == gs[1..];
    } else {
      AddToGroupsCount(gs[1..], r, k);
      assert res[1..] == AddToGroups(gs[1..], r);
    }
  }

  /** A key no group carries has no members. */
  lemma {:induction false} NoGroupCount(gs: seq<SizeGroup>, k: SizeCode)
    requires forall i :: 0 <= i < |gs| ==> gs[i].size != k
    ensures GroupCount(gs, k) == 0
  {
    if |gs| > 0 {
      assert forall i :: 0 <= i < |gs[1..]| ==> gs[1..][i] == gs[i + 1];
      NoGroupCount(gs[1..], k);
    }
  }

  /** `size_groups` / `size_distribution`: members grouped by size code, in order of first appearance. */
  function GroupBySize(recs: seq<MemberRec>): (gs: seq<SizeGroup>)
    ensures |gs| <= |recs|
  {
    if |recs| == 0 then []
    else AddToGroups(GroupBySize(recs[..|recs| - 1]), recs[|recs| - 1])
  }

  /**
   * The grouping is well formed, loses and invents no member, and the group
   * for each size holds exactly the members with that size.
   */
  lemma GroupBySizeCorrect(recs: seq<MemberRec>)
    ensures Keyed(GroupBySize(recs))
    ensures multiset(Flatten(GroupBySize(recs))) == multiset(recs)
    ensures forall k :: GroupCount(GroupBySize(recs), k) == CountSize(recs, k)
  {
    GroupBySizeKeyed(recs);
    GroupBySizeFlatten(recs);
    forall k
      ensures GroupCount(GroupBySize(recs), k) == CountSize(recs, k)
    {
      GroupBySizeCount(recs, k);
    }
  }

  lemma {:induction false} GroupBySizeKeyed(recs: seq<MemberRec>)
    ensures Keyed(GroupBySize(recs))
  {
    if |recs| > 0 {
      GroupBySizeKeyed(recs[..|recs| - 1]);
      AddToGroupsKeyed(GroupBySize(recs[..|recs| - 1]), recs[|recs| - 1]);
    }
  }

  lemma {:induction false} GroupBySizeFlatten(recs: seq<MemberRec>)
    ensures multiset(Flatten(GroupBySize(recs))) == multiset(recs)
  {
    if |recs| > 0 {
      var init := recs[..|recs| - 1];
      var last := recs[|recs| - 1];
      GroupBySizeFlatten(init);
      AddToGroupsFlatten(GroupBySize(init), last);
      assert recs == init + [last];
    }
  }

  lemma {:induction false} GroupBySizeCount(recs: seq<MemberRec>, k: SizeCode)
    ensures GroupCount(GroupBySize(recs), k) == CountSize(recs, k)
  {
    if |recs| > 0 {
      var init := recs[..|recs| - 1];
      var last := recs[|recs| - 1];
      GroupBySizeCount(init, k);
      AddToGroupsCount(GroupBySize(init), last, k);
    }
  }

  /** With distinct keys, the group at position i has GroupCount members for its key. */
  lemma {:induction false} GroupCountAt(gs: seq<SizeGroup>, i: nat)
    requires i < |gs|
    requires forall a, b :: 0 <= a < b < |gs| ==> gs[a].size != gs[b].size
    ensures GroupCount(gs, gs[i].size) == |gs[i].members|
  {
    if i == 0 {
      NoGroupCount(gs[1..], gs[0].size);
    } else {
      assert gs[1..][i - 1] == gs[i];
      GroupCountAt(gs[1..], i - 1);
    }
  }

  lemma {:induction false} FlattenLength(gs: seq<SizeGroup>)
    ensures |Flatten(gs)| == TotalMembers(gs)
  {
    if |gs| > 0 {
      FlattenLength(gs[1..]);
    }
  }

  function TotalMembers(gs: seq<SizeGroup>): nat {
    if |gs| == 0 then 0 else |gs[0].members| + TotalMembers(gs[1..])
  }

  /** `size_distribution`: each size code with its member count, in order of first appearance. */
  function SizeDistribution(recs: seq<MemberRec>): (dist: seq<(SizeCode, nat)>)
    ensures |dist| == |GroupBySize(recs)|
    ensures forall i :: 0 <= i < |dist| ==> dist[i].0 == GroupBySize(recs)[i].size
    ensures forall i :: 0 <= i < |dist| ==> dist[i].1 == CountSize(recs, dist[i].0)
    ensures forall i, j :: 0 <= i < j < |dist| ==> dist[i].0 != dist[j].0
    ensures DistributionTotal(dist) == |recs|
  {
    var gs := GroupBySize(recs);
    GroupBySizeCorrect(recs);
    var dist := seq(|gs|, i requires 0 <= i < |gs| => (gs[i].size, |gs[i].members|));
    forall i | 0 <= i < |dist|
      ensures dist[i].1 == CountSize(recs, dist[i].0)
    {
      GroupCountAt(gs, i);
    }
    DistributionMatchesGroups(gs, dist);
    FlattenLength(gs);
    assert |multiset(Flatten(gs))| == |multiset(recs)|;
    dist
  }

  function DistributionTotal(dist: seq<(SizeCode, nat)>): nat {
    if |dist| == 0 then 0 else dist[0].1 + DistributionTotal(dist[1..])
  }

  lemma {:induction false} DistributionMatchesGroups(gs: seq<SizeGroup>, dist: seq<(SizeCode, nat)>)
    requires |dist| == |gs|
    requires forall i :: 0 <= i < |gs| ==> dist[i] == (gs[i].size, |gs[i].members|)
    ensures DistributionTotal(dist) == TotalMembers(gs)
  {
    if |gs| > 0 {
      DistributionMatchesGroups(gs[1..], dist[1..]);
    }
  }

  /** Every member's size appears in the distribution. */
  lemma EverySizeListed(recs: seq<MemberRec>, r: MemberRec)
    requires r in recs
    ensures exists i :: 0 <= i < |SizeDistribution(recs)| && SizeDistribution(recs)[i].0 == r.size
  {
    var gs := GroupBySize(recs);
    GroupBySizeCorrect(recs);
    assert r in multiset(Flatten(gs));
    var i := MemberGroup(gs, r);
    assert SizeDistribution(recs)[i].0 == r.size;
  }

  /** The group a flattened member comes from. */
  lemma {:induction false} MemberGroup(gs: seq<SizeGroup>, r: MemberRec) returns (i: nat)
    requires Keyed(gs)
    requires r in Flatten(gs)
    ensures i < |gs| && gs[i].size == r.size
  {
    if r in gs[0].members {
      i := 0;
    } else {
      assert r in Flatten(gs[1..]);
      assert Keyed(gs[1..]) by {
        assert forall j :: 0 <= j < |gs[1..]| ==> gs[1..][j] == gs[j + 1];
      }
      var j := MemberGroup(gs[1..], r);
      i := j + 1;
    }
  }

  /** One entry of the bulk-order table. */
  datatype BulkGroup = BulkGroup(size: SizeCode, count: nat, names: seq<string>, eligible: bool, savings: int)

  function Names(recs: seq<MemberRec>): (names: seq<string>)
    ensures |names| == |recs|
    ensures forall i :: 0 <= i < |recs| ==> names[i] == recs[i].member.name
  {
    if |recs| == 0 then [] else [recs[0].member.name] + Names(recs[1..])
  }

  const SavingsPerAdditionalSuit: int := 25

  /** Bulk terms for one size group: eligible from 3 members, $25 saved per member after the first. */
  function BulkTerms(g: SizeGroup): (b: BulkGroup)
    ensures b.size == g.size && b.count == |g.members| && b.names == Names(g.members)
    ensures b.eligible <==> b.count >= 3
    ensures b.count >= 1 ==> 0 <= b.savings == SavingsPerAdditionalSuit * (b.count - 1)
  {
    BulkGroup(g.size, |g.members|, Names(g.members), |g.members| >= 3,
              (|g.members| - 1) * SavingsPerAdditionalSuit)
  }

  /** The bulk-order table, one entry per size in order of first appearance. */
  function BulkGroups(recs: seq<MemberRec>): (bs: seq<BulkGroup>)
    ensures |bs| == |GroupBySize(recs)|
    ensures forall i :: 0 <= i < |bs| ==> bs[i] == BulkTerms(GroupBySize(recs)[i])
  {
    var gs := GroupBySize(recs);
    seq(|gs|, i requires 0 <= i < |gs| => BulkTerms(gs[i]))
  }

  function TotalSavings(bs: seq<BulkGroup>): int {
    if |bs| == 0 then 0 else bs[0].savings + TotalSavings(bs[1..])
  }

  lemma {:induction false} TotalSavingsOfGroups(gs: seq<SizeGroup>, bs: seq<BulkGroup>)
    requires |bs| == |gs|
    requires forall i :: 0 <= i < |gs| ==> bs[i] == BulkTerms(gs[i])
    ensures TotalSavings(bs) == SavingsPerAdditionalSuit * (TotalMembers(gs) - |gs|)
  {
    if |gs| > 0 {
      TotalSavingsOfGroups(gs[1..], bs[1..]);
    }
  }

  /**
   * Together the groups save $25 for every member beyond the first of each size:
   * 25 * (members - distinct sizes), and they are eligible for the bulk
   * discount exactly when their size has at least three members.
   */
  lemma BulkSavingsTotal(recs: seq<MemberRec>)
    ensures TotalSavings(BulkGroups(recs)) == SavingsPerAdditionalSuit * (|recs| - |GroupBySize(recs)|)
    ensures forall i :: 0 <= i < |BulkGroups(recs)| ==>
      (BulkGroups(recs)[i].eligible <==> CountSize(recs, BulkGroups(recs)[i].size) >= 3)
  {
    var gs := GroupBySize(recs);
    GroupBySizeCorrect(recs);
    TotalSavingsOfGroups(gs, BulkGroups(recs));
    FlattenLength(gs);
    assert |multiset(Flatten(gs))| == |multiset(recs)|;
    forall i | 0 <= i < |gs|
      ensures BulkGroups(recs)[i].count == CountSize(recs, gs[i].size)
    {
      GroupCountAt(gs, i);
    }
  }

  /** Stable insertion by member count, largest first: `g` goes after every group at least as large. */
  function InsertByCount(g: SizeGroup, s: seq<SizeGroup>): (r: seq<SizeGroup>)
    ensures |r| == |s| + 1
    ensures multiset(r) == multiset(s) + multiset{g}
  {
    if |s| == 0 then [g]
    else if |s[0].members| >= |g.members| then
      assert s == [s[0]] + s[1..];
      [s[0]] + InsertByCount(g, s[1..])
    else
      assert s == [s[0]] + s[1..];
      [g] + s
  }

  /** `sorted(..., key=len, reverse=True)`: stable sort by member count, largest first. */
  function SortByCount(gs: seq<SizeGroup>): (r: seq<SizeGroup>)
    ensures |r| == |gs|
    ensures multiset(r) == multiset(gs)
  {
    if |gs| == 0 then []
    else
      assert gs == gs[..|gs| - 1] + [gs[|gs| - 1]];
      InsertByCount(gs[|gs| - 1], SortByCount(gs[..|gs| - 1]))
  }

  predicate NonIncreasing(gs: seq<SizeGroup>) {
    forall i, j :: 0 <= i < j < |gs| ==> |gs[i].members| >= |gs[j].members|
  }

  /** Inserting adds only the group itself. */
  lemma InsertByCountElements(g: SizeGroup, s: seq<SizeGroup>)
    ensures forall x :: x in InsertByCount(g, s) ==> x == g || x in s
  {
    var r := InsertByCount(g, s);
    forall x | x in r
      ensures x == g || x in s
    {
      assert x in multiset(r);
    }
  }

  /** Every group of a non-increasing list after the first is no larger than the first. */
  lemma HeadIsLargest(s: seq<SizeGroup>, x: SizeGroup)
    requires NonIncreasing(s) && |s| > 0 && x in s[1..]
    ensures |x.members| <= |s[0].members|
  {
    var k :| 0 <= k < |s[1..]| && s[1..][k] == x;
    assert s[k + 1] == x;
  }

  lemma {:induction false} InsertByCountSorted(g: SizeGroup, s: seq<SizeGroup>)
    requires NonIncreasing(s)
    ensures NonIncreasing(InsertByCount(g, s))
  {
    var r := InsertByCount(g, s);
    if |s| > 0 && |s[0].members| >= |g.members| {
      InsertByCountSorted(g, s[1..]);
      var t := InsertByCount(g, s[1..]);
      assert r == [s[0]] + t;
      InsertByCountElements(g, s[1..]);
      forall j | 0 <= j < |t|
        ensures |s[0].members| >= |t[j].members|
      {
        assert t[j] in t;
        if t[j] != g {
          HeadIsLargest(s, t[j]);
        }
      }
      assert forall i :: 1 <= i < |r| ==> r[i] == t[i - 1];
    } else if |s| > 0 {
      assert r == [g] + s;
      assert forall i :: 1 <= i < |r| ==> r[i] == s[i - 1];
    }
  }

  lemma {:induction false} InsertByCountFlatten(g: SizeGroup, s: seq<SizeGroup>)
    ensures multiset(Flatten(InsertByCount(g, s))) == multiset(g.members) + multiset(Flatten(s))
  {
    var r := InsertByCount(g, s);
    if |s| == 0 {
      assert Flatten(r) == g.members + Flatten([]);
    } else if |s[0].members| >= |g.members| {
      InsertByCountFlatten(g, s[1..]);
      assert r[1..] == InsertByCount(g, s[1..]);
    } else {
      assert r[1..] == s;
    }
  }

  /** The sort orders groups largest first. */
  lemma {:induction false} SortByCountSorted(gs: seq<SizeGroup>)
    ensures NonIncreasing(SortByCount(gs))
  {
    if |gs| > 0 {
      SortByCountSorted(gs[..|gs| - 1]);
      InsertByCountSorted(gs[|gs| - 1], SortByCount(gs[..|gs| - 1]));
    }
  }

  /** The sort keeps every member. */
  lemma {:induction false} SortByCountKeepsMembers(gs: seq<SizeGroup>)
    ensures multiset(Flatten(SortByCount(gs))) == multiset(Flatten(gs))
  {
    if |gs| > 0 {
      var init := gs[..|gs| - 1];
      var last := gs[|gs| - 1];
      SortByCountLast(gs, init, last);
      SortByCountKeepsMembers(init);
      InsertByCountFlatten(last, SortByCount(init));
      FlattenAppend(init, [last]);
      assert Flatten([last]) == last.members + Flatten([]);
      calc {
        multiset(Flatten(SortByCount(gs)));
        multiset(last.members) + multiset(Flatten(SortByCount(init)));
        multiset(last.members) + multiset(Flatten(init));
        multiset(Flatten(init) + Flatten([last]));
        multiset(Flatten(gs));
      }
    }
  }

  lemma {:induction false} FlattenAppend(a: seq<SizeGroup>, b: seq<SizeGroup>)
    ensures Flatten(a + b) == Flatten(a) + Flatten(b)
  {
    if |a| == 0 {
      assert a + b == b;
    } else {
      assert (a + b)[1..] == a[1..] + b;
      FlattenAppend(a[1..], b);
    }
  }

  predicate SameCount(gs: seq<SizeGroup>) {
    forall i :: 0 <= i < |gs| ==> |gs[i].members| == |gs[0].members|
  }

  lemma {:induction false} InsertEqualGoesLast(g: SizeGroup, s: seq<SizeGroup>)
    requires forall i :: 0 <= i < |s| ==> |s[i].members| == |g.members|
    ensures InsertByCount(g, s) == s + [g]
  {
    if |s| > 0 {
      InsertEqualGoesLast(g, s[1..]);
      assert s == [s[0]] + s[1..];
    }
  }

  /** Dropping the last group keeps the tie, and the last group ties with every earlier one. */
  lemma SameCountInit(gs: seq<SizeGroup>, init: seq<SizeGroup>, last: SizeGroup)
    requires |gs| > 0 && SameCount(gs)
    requires init == gs[..|gs| - 1] && last == gs[|gs| - 1]
    ensures SameCount(init)
    ensures forall i :: 0 <= i < |init| ==> |init[i].members| == |last.members|
  {
  }

  /** The last step of the insertion sort. */
  lemma SortByCountLast(gs: seq<SizeGroup>, init: seq<SizeGroup>, last: SizeGroup)
    requires |gs| > 0 && init == gs[..|gs| - 1] && last == gs[|gs| - 1]
    ensures SortByCount(gs) == InsertByCount(last, SortByCount(init))
    ensures gs == init + [last]
  {
    assert gs == init + [last];
  }

  /** Stability: groups of equal size keep their order of first appearance. */
  lemma {:induction false} SortByCountStableOnTies(gs: seq<SizeGroup>)
    requires SameCount(gs)
    ensures SortByCount(gs) == gs
  {
    if |gs| > 0 {
      var init := gs[..|gs| - 1];
      var last := gs[|gs| - 1];
      SameCountInit(gs, init, last);
      SortByCountStableOnTies(init);
      InsertEqualGoesLast(last, init);
      SortByCountLast(gs, init, last);
    }
  }

  /** One line of the priority order. */
  datatype PriorityEntry = PriorityEntry(rec: MemberRec, priority: nat, groupSize: Option<nat>)

  function NonGrooms(recs: seq<MemberRec>): (r: seq<MemberRec>)
    ensures forall x :: x in r ==> x.member.role != Groom
  {
    if |recs| == 0 then []
    else if recs[0].member.role != Groom then [recs[0]] + NonGrooms(recs[1..])
    else NonGrooms(recs[1..])
  }

  lemma {:induction false} NonGroomsAppend(a: seq<MemberRec>, b: seq<MemberRec>)
    ensures NonGrooms(a + b) == NonGrooms(a) + NonGrooms(b)
  {
    if |a| == 0 {
      assert a + b == b;
    } else {
      assert (a + b)[1..] == a[1..] + b;
      NonGroomsAppend(a[1..], b);
    }
  }

  lemma {:induction false} NonGroomsCount(s: seq<MemberRec>, x: MemberRec)
    ensures multiset(NonGrooms(s))[x] == if x.member.role != Groom then multiset(s)[x] else 0
  {
    if |s| > 0 {
      NonGroomsCount(s[1..], x);
      assert s == [s[0]] + s[1..];
    }
  }

  /** Filtering keeps permutations: equal multisets give equal filtered multisets. */
  lemma NonGroomsPermutation(a: seq<MemberRec>, b: seq<MemberRec>)
    requires multiset(a) == multiset(b)
    ensures multiset(NonGrooms(a)) == multiset(NonGrooms(b))
  {
    forall x
      ensures multiset(NonGrooms(a))[x] == multiset(NonGrooms(b))[x]
    {
      NonGroomsCount(a, x);
      NonGroomsCount(b, x);
    }
  }

  /** The priority-2 lines for the groups, in order, skipping grooms. */
  function GroupEntries(gs: seq<SizeGroup>): seq<PriorityEntry> {
    if |gs| == 0 then []
    else MemberEntries(gs[0].members, |gs[0].members|) + GroupEntries(gs[1..])
  }

  function MemberEntries(members: seq<MemberRec>, groupSize: nat): (es: seq<PriorityEntry>)
    ensures EntryRecs(es) == NonGrooms(members)
    ensures forall e :: e in es ==> e.priority == 2 && e.groupSize == Some(groupSize)
    ensures forall e :: e in es ==> e.rec in members
  {
    if |members| == 0 then []
    else if members[0].member.role != Groom
    then [PriorityEntry(members[0], 2, Some(groupSize))] + MemberEntries(members[1..], groupSize)
    else MemberEntries(members[1..], groupSize)
  }

  function EntryRecs(es: seq<PriorityEntry>): seq<MemberRec> {
    if |es| == 0 then [] else [es[0].rec] + EntryRecs(es[1..])
  }

  lemma {:induction false} EntryRecsAppend(a: seq<PriorityEntry>, b: seq<PriorityEntry>)
    ensures EntryRecs(a + b) == EntryRecs(a) + EntryRecs(b)
  {
    if |a| == 0 {
      assert a + b == b;
    } else {
      assert (a + b)[1..] == a[1..] + b;
      EntryRecsAppend(a[1..], b);
    }
  }

  lemma {:induction false} GroupEntriesRecs(gs: seq<SizeGroup>)
    ensures EntryRecs(GroupEntries(gs)) == NonGrooms(Flatten(gs))
    ensures forall e :: e in GroupEntries(gs) ==> e.priority == 2 && e.groupSize.Some?
  {
    if |gs| > 0 {
      GroupEntriesRecs(gs[1..]);
      EntryRecsAppend(MemberEntries(gs[0].members, |gs[0].members|), GroupEntries(gs[1..]));
      NonGroomsAppend(gs[0].members, Flatten(gs[1..]));
    }
  }

  /** Entries of groups no larger than `b` carry a group size of at most `b`. */
  lemma {:induction false} GroupEntriesBounded(gs: seq<SizeGroup>, b: nat)
    requires forall k :: 0 <= k < |gs| ==> |gs[k].members| <= b
    ensures forall e :: e in GroupEntries(gs) ==> e.groupSize.Some? && e.groupSize.value <= b
  {
    if |gs| > 0 {
      assert forall k :: 0 <= k < |gs[1..]| ==> gs[1..][k] == gs[k + 1];
      GroupEntriesBounded(gs[1..], b);
    }
  }

  /** Entry i carries a group size at least as large as entry j. */
  predicate EntriesOrderedAt(es: seq<PriorityEntry>, i: nat, j: nat)
    requires i < |es| && j < |es|
  {
    es[i].groupSize.Some? && es[j].groupSize.Some? && es[i].groupSize.value >= es[j].groupSize.value
  }

  /** Groups sorted largest first give entries whose group sizes never increase. */
  lemma {:induction false} GroupEntriesOrdered(gs: seq<SizeGroup>)
    requires NonIncreasing(gs)
    ensures forall i, j :: 0 <= i < j < |GroupEntries(gs)| ==> EntriesOrderedAt(GroupEntries(gs), i, j)
  {
    if |gs| > 0 {
      var a := MemberEntries(gs[0].members, |gs[0].members|);
      var rest := GroupEntries(gs[1..]);
      var es := GroupEntries(gs);
      assert forall k :: 0 <= k < |gs[1..]| ==> gs[1..][k] == gs[k + 1];
      GroupEntriesOrdered(gs[1..]);
      GroupEntriesBounded(gs[1..], |gs[0].members|);
      assert es == a + rest;
      forall i, j | 0 <= i < j < |es|
        ensures EntriesOrderedAt(es, i, j)
      {
        if j < |a| {
          assert es[i] == a[i] && a[i] in a;
          assert es[j] == a[j] && a[j] in a;
          assert es[i].groupSize.value >= es[j].groupSize.value;
        } else if i < |a| {
          assert es[i] == a[i] && a[i] in a;
          assert es[j] == rest[j - |a|] && rest[j - |a|] in rest;
          assert es[i].groupSize.value >= es[j].groupSize.value;
        } else {
          var i', j' := i - |a|, j - |a|;
          assert es[i] == rest[i'] && es[j] == rest[j'];
          assert 0 <= i' < j' < |rest|;
          assert EntriesOrderedAt(rest, i', j');
        }
      }
    }
  }

  /** When every group holds all members of its size, each entry's group size counts its own size. */
  lemma {:induction false} GroupEntriesSizes(gs: seq<SizeGroup>, recs: seq<MemberRec>)
    requires MembersMatch(gs)
    requires forall k :: 0 <= k < |gs| ==> |gs[k].members| == CountSize(recs, gs[k].size)
    ensures forall e :: e in GroupEntries(gs) ==> e.groupSize == Some(CountSize(recs, e.rec.size))
  {
    if |gs| > 0 {
      assert forall k :: 0 <= k < |gs[1..]| ==> gs[1..][k] == gs[k + 1];
      GroupEntriesSizes(gs[1..], recs);
      var a := MemberEntries(gs[0].members, |gs[0].members|);
      forall e | e in a
        ensures e.groupSize == Some(CountSize(recs, e.rec.size))
      {
        assert e.rec in gs[0].members;
      }
    }
  }

  /** The sorted groups keep their keys, and each holds every member of its size. */
  lemma SortedGroupsCounted(recs: seq<MemberRec>)
    ensures var sorted := SortByCount(GroupBySize(recs));
      && MembersMatch(sorted)
      && NonIncreasing(sorted)
      && forall k :: 0 <= k < |sorted| ==> |sorted[k].members| == CountSize(recs, sorted[k].size)
  {
    var gs := GroupBySize(recs);
    var sorted := SortByCount(gs);
    GroupBySizeCorrect(recs);
    SortByCountSorted(gs);
    forall k | 0 <= k < |sorted|
      ensures (forall m :: m in sorted[k].members ==> m.size == sorted[k].size)
      ensures |sorted[k].members| == CountSize(recs, sorted[k].size)
    {
      assert sorted[k] in multiset(gs);
      var idx :| 0 <= idx < |gs| && gs[idx] == sorted[k];
      GroupCountAt(gs, idx);
    }
  }

  /** The size groups' entries run largest group first, each tagged with the count of its size. */
  lemma RestEntriesOrdered(recs: seq<MemberRec>)
    ensures var rest := GroupEntries(SortByCount(GroupBySize(recs)));
      && (forall i :: 0 <= i < |rest| ==> rest[i].groupSize == Some(CountSize(recs, rest[i].rec.size)))
      && (forall i, j :: 0 <= i < j < |rest| ==> rest[i].groupSize.value >= rest[j].groupSize.value)
  {
    SortedGroupsCounted(recs);
    CountedGroupEntries(SortByCount(GroupBySize(recs)), recs);
  }

  /** Entries of counted groups, sorted largest first, are counted and ordered. */
  lemma CountedGroupEntries(gs: seq<SizeGroup>, recs: seq<MemberRec>)
    requires MembersMatch(gs) && NonIncreasing(gs)
    requires forall k :: 0 <= k < |gs| ==> |gs[k].members| == CountSize(recs, gs[k].size)
    ensures var es := GroupEntries(gs);
      && (forall i :: 0 <= i < |es| ==> es[i].groupSize == Some(CountSize(recs, es[i].rec.size)))
      && (forall i, j :: 0 <= i < j < |es| ==> es[i].groupSize.value >= es[j].groupSize.value)
  {
    var es := GroupEntries(gs);
    GroupEntriesSizes(gs, recs);
    GroupEntriesOrdered(gs);
    forall i | 0 <= i < |es|
      ensures es[i].groupSize == Some(CountSize(recs, es[i].rec.size))
    {
      assert es[i] in es;
    }
    forall i, j | 0 <= i < j < |es|
      ensures es[i].groupSize.value >= es[j].groupSize.value
    {
      assert EntriesOrderedAt(es, i, j);
    }
  }

  /** The first groom in member order, if any. */
  function FirstGroom(recs: seq<MemberRec>): (g: Option<MemberRec>)
    ensures g.Some? ==> g.value in recs && g.value.member.role == Groom
    ensures g.None? <==> forall i :: 0 <= i < |recs| ==> recs[i].member.role != Groom
  {
    if |recs| == 0 then None
    else if recs[0].member.role == Groom then Some(recs[0])
    else
      var rest := FirstGroom(recs[1..]);
      assert forall i :: 1 <= i < |recs| ==> recs[i] == recs[1..][i - 1];
      rest
  }

  /** The priority order: the first groom with priority 1, then every other non-groom member by size group. */
  function PriorityOrder(recs: seq<MemberRec>): (p: seq<PriorityEntry>)
    ensures FirstGroom(recs).Some? ==> |p| > 0 && p[0] == PriorityEntry(FirstGroom(recs).value, 1, None)
  {
    var head := match FirstGroom(recs)
      case Some(g) => [PriorityEntry(g, 1, None)]
      case None => [];
    head + GroupEntries(SortByCount(GroupBySize(recs)))
  }

  /** The entries after the optional groom entry are the size groups' entries. */
  lemma PriorityOrderSplit(recs: seq<MemberRec>)
    ensures var p := PriorityOrder(recs); var h := if FirstGroom(recs).Some? then 1 else 0;
      && |p| >= h
      && (FirstGroom(recs).Some? ==> p[0] == PriorityEntry(FirstGroom(recs).value, 1, None))
      && p[h..] == GroupEntries(SortByCount(GroupBySize(recs)))
  {
  }

  /**
   * The priority order starts with the first groom (priority 1) when there is
   * one; after it come exactly the non-groom members, each once, with
   * priority 2, tagged with the number of members of their size and listed
   * largest size group first; later grooms are not listed.
   */
  lemma PriorityOrderCorrect(recs: seq<MemberRec>)
    ensures var p := PriorityOrder(recs); var h := if FirstGroom(recs).Some? then 1 else 0;
      && |p| >= h
      && (FirstGroom(recs).Some? ==> p[0] == PriorityEntry(FirstGroom(recs).value, 1, None))
      && (forall i :: h <= i < |p| ==> p[i].priority == 2 && p[i].rec.member.role != Groom)
      && multiset(EntryRecs(p[h..])) == multiset(NonGrooms(recs))
      && (forall i :: h <= i < |p| ==> p[i].groupSize == Some(CountSize(recs, p[i].rec.size)))
      && (forall i, j :: h <= i < j < |p| ==> p[i].groupSize.value >= p[j].groupSize.value)
  {
    PriorityOrderSplit(recs);
    RestEntriesAreNonGrooms(recs);
    RestEntriesOrdered(recs);
    PriorityTail(PriorityOrder(recs), if FirstGroom(recs).Some? then 1 else 0,
                 GroupEntries(SortByCount(GroupBySize(recs))), NonGrooms(recs), recs);
  }

  /** The facts about the size groups' entries carry over to the order's tail. */
  lemma PriorityTail(p: seq<PriorityEntry>, h: nat, rest: seq<PriorityEntry>, nonGrooms: seq<MemberRec>,
                     recs: seq<MemberRec>)
    requires h <= |p| && p[h..] == rest
    requires forall i :: 0 <= i < |rest| ==> rest[i].priority == 2 && rest[i].rec.member.role != Groom
    requires multiset(EntryRecs(rest)) == multiset(nonGrooms)
    requires forall i :: 0 <= i < |rest| ==> rest[i].groupSize == Some(CountSize(recs, rest[i].rec.size))
    requires forall i, j :: 0 <= i < j < |rest| ==> rest[i].groupSize.value >= rest[j].groupSize.value
    ensures forall i :: h <= i < |p| ==> p[i].priority == 2 && p[i].rec.member.role != Groom
    ensures multiset(EntryRecs(p[h..])) == multiset(nonGrooms)
    ensures forall i :: h <= i < |p| ==> p[i].groupSize == Some(CountSize(recs, p[i].rec.size))
    ensures forall i, j :: h <= i < j < |p| ==> p[i].groupSize.value >= p[j].groupSize.value
  {
    forall i | h <= i < |p|
      ensures p[i].priority == 2 && p[i].rec.member.role != Groom
      ensures p[i].groupSize == Some(CountSize(recs, p[i].rec.size))
    {
      assert p[i] == rest[i - h];
    }
    forall i, j | h <= i < j < |p|
      ensures p[i].groupSize.value >= p[j].groupSize.value
    {
      assert p[i] == rest[i - h] && p[j] == rest[j - h];
    }
  }

  /** The size groups' entries carry priority 2, name no groom, and hold every non-groom once. */
  lemma RestEntriesAreNonGrooms(recs: seq<MemberRec>)
    ensures var rest := GroupEntries(SortByCount(GroupBySize(recs)));
      && (forall i :: 0 <= i < |rest| ==> rest[i].priority == 2 && rest[i].rec.member.role != Groom)
      && multiset(EntryRecs(rest)) == multiset(NonGrooms(recs))
  {
    var gs := GroupBySize(recs);
    var sorted := SortByCount(gs);
    var rest := GroupEntries(sorted);
    GroupBySizeFlatten(recs);
    SortByCountKeepsMembers(gs);
    GroupEntriesRecs(sorted);
    NonGroomsPermutation(Flatten(sorted), recs);
    forall i | 0 <= i < |rest|
      ensures rest[i].priority == 2 && rest[i].rec.member.role != Groom
    {
      EntryIn(rest, i);
    }
  }

  lemma {:induction false} EntryIn(es: seq<PriorityEntry>, i: nat)
    requires i < |es|
    ensures es[i].rec in EntryRecs(es)
  {
    if i > 0 {
      assert es[1..][i - 1] == es[i];
      EntryIn(es[1..], i - 1);
    }
  }
}
