/**
 * The wedding group: members in the order they were added, and a coordinator
 * that is the first groom or best man ever added.
 */
module WeddingGroups {
  import opened Wrappers
  import opened Wedding
  import SizeLadder

  datatype WeddingGroup = WeddingGroup(
    id: string, details: Details, members: seq<Member>, coordinator: Option<Member>)

  /** A member with the recommendation the engine produced for them. */
  datatype MemberRec = MemberRec(member: Member, size: SizeLadder.SizeCode, confidence: real)

  /**
   * The numeric size the analyzer reads with `int(size[:2])`: the base, for the
   * two-digit bases every ladder produces (SizeLadder.NumericPrefixRoundTrip).
   */
  function Numeric(r: MemberRec): int {
    r.size.base
  }

  /** Grooms and best men may coordinate the group. */
  predicate IsLead(m: Member) {
    m.role == Groom || m.role == BestMan
  }

  /** The first groom or best man in a member list, if any. */
  function FirstLead(members: seq<Member>): (r: Option<Member>)
    ensures r.Some? ==> r.value in members && IsLead(r.value)
    ensures r.None? <==> forall i :: 0 <= i < |members| ==> !IsLead(members[i])
  {
    if |members| == 0 then None
    else if IsLead(members[0]) then Some(members[0])
    else FirstLead(members[1..])
  }

  /** The group invariant: the coordinator is the first lead among the members. */
  predicate CoordinatorInvariant(g: WeddingGroup) {
    g.coordinator == FirstLead(g.members)
  }

  /** A new group has no members and no coordinator. */
  function NewGroup(id: string, details: Details): (g: WeddingGroup)
    ensures g.members == [] && CoordinatorInvariant(g)
  {
    WeddingGroup(id, details, [], None)
  }

  /**
   * Appends the member; the member becomes the coordinator only when there is
   * none yet and the member is a groom or best man.
   */
  function AddMember(g: WeddingGroup, m: Member): (r: WeddingGroup)
    ensures r.members == g.members + [m]
    ensures r.id == g.id && r.details == g.details
    ensures g.coordinator.Some? ==> r.coordinator == g.coordinator
    ensures r.coordinator.Some? <==> g.coordinator.Some? || IsLead(m)
  {
    var coordinator := if g.coordinator.None? && IsLead(m) then Some(m) else g.coordinator;
    WeddingGroup(g.id, g.details, g.members + [m], coordinator)
  }

  lemma {:induction false} FirstLeadAppend(members: seq<Member>, m: Member)
    ensures FirstLead(members + [m]) ==
      (if FirstLead(members).Some? then FirstLead(members)
       else if IsLead(m) then Some(m) else None)
  {
    if |members| == 0 {
      assert members + [m] == [m];
      assert [m][1..] == [];
    } else {
      assert (members + [m])[1..] == members[1..] + [m];
      FirstLeadAppend(members[1..], m);
    }
  }

  /** Adding a member keeps the coordinator the first lead of the member list. */
  lemma AddMemberKeepsInvariant(g: WeddingGroup, m: Member)
    requires CoordinatorInvariant(g)
    ensures CoordinatorInvariant(AddMember(g, m))
  {
    FirstLeadAppend(g.members, m);
  }

  /** The group obtained by adding the given members one after another. */
  function Build(id: string, details: Details, members: seq<Member>): (g: WeddingGroup)
    ensures g.members == members
  {
    if |members| == 0 then NewGroup(id, details)
    else AddMember(Build(id, details, members[..|members| - 1]), members[|members| - 1])
  }

  /** However the members arrive, the coordinator is the first lead among them. */
  lemma {:induction false} BuildCoordinator(id: string, details: Details, members: seq<Member>)
    ensures CoordinatorInvariant(Build(id, details, members))
  {
    if |members| > 0 {
      BuildCoordinator(id, details, members[..|members| - 1]);
      AddMemberKeepsInvariant(Build(id, details, members[..|members| - 1]), members[|members| - 1]);
    }
  }

  /** Number of members holding a role. */
  function RoleCount(members: seq<Member>, role: Role): (n: nat)
    ensures n <= |members|
  {
    if |members| == 0 then 0
    else (if members[0].role == role then 1 else 0) + RoleCount(members[1..], role)
  }

  /** `get_roles`: each role held by someone, with its count. */
  function GetRoles(g: WeddingGroup): (roles: map<Role, nat>)
    ensures forall role :: role in roles <==> RoleCount(g.members, role) > 0
    ensures forall role :: role in roles ==> roles[role] == RoleCount(g.members, role)
  {
    map role | role in AllRoles && RoleCount(g.members, role) > 0 :: RoleCount(g.members, role)
  }

  const AllRoles: set<Role> :=
    {Groom, Groomsman, BestMan, FatherOfBride, FatherOfGroom, Usher, RingBearer, Guests}

  /** The per-role counts add up to the group size. */
  lemma {:induction false} RoleCountsSum(members: seq<Member>)
    ensures RoleCount(members, Groom) + RoleCount(members, Groomsman) + RoleCount(members, BestMan) +
            RoleCount(members, FatherOfBride) + RoleCount(members, FatherOfGroom) +
            RoleCount(members, Usher) + RoleCount(members, RingBearer) + RoleCount(members, Guests)
            == |members|
  {
    if |members| > 0 {
      RoleCountsSum(members[1..]);
    }
  }
}
