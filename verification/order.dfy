/**
 * KCTmenswear wedding orders: per-item pricing with a group-size bulk discount,
 * production days, product type and colour choice, special instructions, the
 * rush rule with its delivery date, and the next steps shown to the party.
 * Amounts are in cents; dates are day numbers and "days until the wedding" is a
 * parameter, since the Python code reads both from the clock.
 */
module KctOrders {
  import opened Wrappers
  import opened Wedding
  import opened WeddingGroups
  import opened Alterations
  import SizeLadder

  datatype OrderStatus =
    | Pending | Confirmed | InProduction | QualityCheck | Shipped | Delivered | Completed | Cancelled

  datatype ProductType = Suit | Tuxedo | Blazer | Vest | Shirt | Tie | Accessories

  /** List prices in cents. */
  const PriceTable: map<ProductType, nat> := map[
    Suit := 29999, Tuxedo := 39999, Blazer := 24999, Vest := 8999,
    Shirt := 4999, Tie := 2999, Accessories := 1999]

  /** Price used for a product missing from the table. */
  const DefaultPrice: nat := 10000

  function Price(p: ProductType): (cents: nat)
    ensures p in PriceTable && cents == PriceTable[p]
    ensures 1999 <= cents <= 39999
  {
    InPriceTable(p);
    if p in PriceTable then PriceTable[p] else DefaultPrice
  }

  lemma InPriceTable(p: ProductType)
    ensures p in PriceTable
  {
    match p
    case Suit =>
    case Tuxedo =>
    case Blazer =>
    case Vest =>
    case Shirt =>
    case Tie =>
    case Accessories =>
  }

  /** Every product type has a list price, so the default is never charged. */
  lemma EveryProductListed(p: ProductType)
    ensures p in PriceTable
    ensures 1999 <= Price(p) <= 39999
  {
  }

  datatype OrderItem = OrderItem(
    memberId: string, memberName: string, productType: ProductType,
    size: SizeLadder.SizeCode, fitPreference: string, color: string,
    specialInstructions: string, alterations: seq<Alteration>, delivery: int)

  datatype Order = Order(
    orderId: string, group: WeddingGroup, items: seq<OrderItem>,
    total: real, discount: real, status: OrderStatus, completion: Option<int>)

  /** Sum of the list prices of the items. */
  function Subtotal(items: seq<OrderItem>): (s: nat)
    ensures |items| > 0 ==> s >= 1999 * |items|
    ensures s <= 39999 * |items|
  {
    if |items| == 0 then 0
    else
      EveryProductListed(items[0].productType);
      Price(items[0].productType) + Subtotal(items[1..])
  }

  lemma {:induction false} SubtotalAppend(items: seq<OrderItem>, item: OrderItem)
    ensures Subtotal(items + [item]) == Subtotal(items) + Price(item.productType)
  {
    if |items| == 0 {
      assert items + [item] == [item];
    } else {
      assert (items + [item])[1..] == items[1..] + [item];
      SubtotalAppend(items[1..], item);
    }
  }

  /** The bulk discount rate, set by the number of group members (not items). */
  function DiscountRate(groupSize: nat): (rate: real)
    ensures rate == 0.0 || rate == 0.10 || rate == 0.15
    ensures rate > 0.0 <==> groupSize >= 3
    ensures rate == 0.15 <==> groupSize >= 5
  {
    if groupSize >= 5 then 0.15 else if groupSize >= 3 then 0.10 else 0.0
  }

  /** A larger group never gets a smaller discount rate. */
  lemma DiscountRateMonotone(n1: nat, n2: nat)
    requires n1 <= n2
    ensures DiscountRate(n1) <= DiscountRate(n2)
  {
  }

  /** Production takes two days per member, and at least 14 days. */
  function ProductionDays(groupSize: nat): (days: nat)
    ensures days >= 14 && days >= 2 * groupSize
    ensures days == 14 || days == 2 * groupSize
  {
    if 14 >= groupSize * 2 then 14 else groupSize * 2
  }

  /**
   * The discount on a subtotal: the subtotal times the group's rate, written out
   * per rate so that the arithmetic on totals stays linear.
   */
  function Discount(subtotal: real, groupSize: nat): real {
    var rate := DiscountRate(groupSize);
    if rate == 0.15 then subtotal * 0.15
    else if rate == 0.10 then subtotal * 0.10
    else 0.0
  }

  /** The discount is the subtotal times the rate. */
  lemma DiscountIsRate(subtotal: real, groupSize: nat)
    ensures Discount(subtotal, groupSize) == subtotal * DiscountRate(groupSize)
  {
  }

  /** The totals hold for the order's current items and group size. */
  predicate TotalsReflectItems(o: Order) {
    var subtotal := Subtotal(o.items) as real;
    && o.discount == Discount(subtotal, |o.group.members|)
    && o.total == subtotal - o.discount
  }

  /** Recalculation: discount and total from the items, completion from today. */
  function Recalculate(o: Order, today: int): (r: Order)
    ensures TotalsReflectItems(r)
    ensures 0.0 <= r.total <= Subtotal(r.items) as real
    ensures r.completion == Some(today + ProductionDays(|o.group.members|))
    ensures r.items == o.items && r.group == o.group && r.orderId == o.orderId && r.status == o.status
  {
    var subtotal := Subtotal(o.items) as real;
    var discount := Discount(subtotal, |o.group.members|);
    o.(discount := discount, total := subtotal - discount,
       completion := Some(today + ProductionDays(|o.group.members|)))
  }

  /** A new order, pending, with no items. */
  function NewOrder(orderId: string, group: WeddingGroup): (o: Order)
    ensures o.items == [] && o.status == Pending
    ensures TotalsReflectItems(o)
  {
    Order(orderId, group, [], 0.0, 0.0, Pending, None)
  }

  /** `add_item`: appends exactly the one item and recalculates the totals. */
  function AddItem(o: Order, item: OrderItem, today: int): (r: Order)
    ensures r.items == o.items + [item]
    ensures TotalsReflectItems(r)
    ensures r.group == o.group && r.orderId == o.orderId && r.status == o.status
  {
    Recalculate(o.(items := o.items + [item]), today)
  }

  /**
   * After adding an item the total grows by the item's price less the group's
   * discount on it.
   */
  lemma AddItemTotal(o: Order, item: OrderItem, today: int)
    requires TotalsReflectItems(o)
    ensures AddItem(o, item, today).total ==
      o.total + Price(item.productType) as real * (1.0 - DiscountRate(|o.group.members|))
  {
    SubtotalAppend(o.items, item);
    TotalsStep(o, AddItem(o, item, today), Price(item.productType));
  }

  /** Between two orders whose totals reflect their items, a subtotal larger by `price` adds its discounted value. */
  lemma TotalsStep(o: Order, r: Order, price: nat)
    requires TotalsReflectItems(o) && TotalsReflectItems(r)
    requires r.group == o.group && Subtotal(r.items) == Subtotal(o.items) + price
    ensures r.total == o.total + price as real * (1.0 - DiscountRate(|o.group.members|))
  {
    var rate := DiscountRate(|o.group.members|);
    if rate == 0.15 {
      assert price as real * (1.0 - rate) == price as real * 0.85;
    } else if rate == 0.10 {
      assert price as real * (1.0 - rate) == price as real * 0.9;
    } else {
      assert price as real * (1.0 - rate) == price as real;
    }
  }

  /** The total is the subtotal less the discount, between 85% and 100% of it. */
  lemma TotalBounds(o: Order)
    requires TotalsReflectItems(o)
    ensures 0.85 * Subtotal(o.items) as real <= o.total <= Subtotal(o.items) as real
    ensures o.total == Subtotal(o.items) as real <==> Subtotal(o.items) == 0 || |o.group.members| < 3
  {
  }

  /** Adds the items one after another. */
  function AddItems(o: Order, items: seq<OrderItem>, today: int): (r: Order)
    ensures r.group == o.group && r.orderId == o.orderId && r.status == o.status
    ensures |items| > 0 ==> TotalsReflectItems(r)
    decreases |items|
  {
    if |items| == 0 then o
    else AddItems(AddItem(o, items[0], today), items[1..], today)
  }

  lemma {:induction false} AddItemsAppends(o: Order, items: seq<OrderItem>, today: int)
    ensures AddItems(o, items, today).items == o.items + items
    decreases |items|
  {
    if |items| > 0 {
      AddItemsAppends(AddItem(o, items[0], today), items[1..], today);
      assert o.items + [items[0]] + items[1..] == o.items + items;
    }
  }

  // ---------------------------------------------------------------------------
  // Product, colour, delivery

  /** The product follows the wedding style alone; the role plays no part. */
  function ProductFor(role: Role, style: Style): (p: ProductType)
    ensures p == Tuxedo <==> style == BlackTie
    ensures p == Blazer <==> style == Casual
    ensures p == Suit <==> style != BlackTie && style != Casual
  {
    if style == BlackTie then Tuxedo
    else if style == Formal || style == SemiFormal then Suit
    else if style == Casual then Blazer
    else Suit
  }

  lemma ProductIgnoresRole(r1: Role, r2: Role, style: Style)
    ensures ProductFor(r1, style) == ProductFor(r2, style)
  {
  }

  /** Colour from the formality level. */
  function ColorFor(details: Details): (c: string)
    ensures c == "navy" <==> details.formalityLevel == "formal"
    ensures c == "charcoal" <==> details.formalityLevel == "semi_formal"
    ensures c == "black" <==> details.formalityLevel != "formal" && details.formalityLevel != "semi_formal"
  {
    if details.formalityLevel == "formal" then "navy"
    else if details.formalityLevel == "semi_formal" then "charcoal"
    else "black"
  }

  /** Fewer than 35 days (five weeks) to the wedding makes a rush order. */
  predicate IsRush(daysUntil: int) {
    daysUntil < 35
  }

  /** Delivery two weeks before the wedding for a rush order, three weeks otherwise. */
  function DeliveryDate(weddingDate: int, daysUntil: int): (d: int)
    ensures d < weddingDate
    ensures weddingDate - d == 14 <==> IsRush(daysUntil)
    ensures weddingDate - d == 21 <==> !IsRush(daysUntil)
  {
    if daysUntil < 35 then weddingDate - 14 else weddingDate - 21
  }

  /** A rush order is never delivered earlier than a standard one for the same wedding. */
  lemma RushDeliversLater(weddingDate: int, d1: int, d2: int)
    requires d1 <= d2
    ensures DeliveryDate(weddingDate, d2) <= DeliveryDate(weddingDate, d1)
  {
  }

  // ---------------------------------------------------------------------------
  // Special instructions

  function LowerChar(c: char): char {
    if 'A' <= c <= 'Z' then (c as int + 32) as char else c
  }

  /** ASCII lower-casing, `str.lower()` on the tag texts. */
  function Lower(s: string): (r: string)
    ensures |r| == |s|
    ensures forall i :: 0 <= i < |s| ==> r[i] == LowerChar(s[i])
  {
    if |s| == 0 then "" else [LowerChar(s[0])] + Lower(s[1..])
  }

  predicate ContainsAt(s: string, p: string, i: int) {
    0 <= i && i + |p| <= |s| && s[i..i + |p|] == p
  }

  /** `p in s` for strings. */
  predicate Contains(s: string, p: string) {
    exists i :: 0 <= i <= |s| && ContainsAt(s, p, i)
  }

  /** An alteration mentions a wedding, photos or comfort, in any case. */
  predicate IsPriority(a: Alteration) {
    var l := Lower(Text(a));
    Contains(l, "wedding") || Contains(l, "photo") || Contains(l, "comfort")
  }

  /** The priority alterations, in their original order. */
  function PriorityAlterations(alts: seq<Alteration>): (r: seq<Alteration>)
    ensures |r| <= |alts|
    ensures forall a :: a in r <==> a in alts && IsPriority(a)
  {
    if |alts| == 0 then []
    else (if IsPriority(alts[0]) then [alts[0]] else []) + PriorityAlterations(alts[1..])
  }

  lemma {:induction false} PriorityAlterationsAppend(a: seq<Alteration>, b: seq<Alteration>)
    ensures PriorityAlterations(a + b) == PriorityAlterations(a) + PriorityAlterations(b)
  {
    if |a| == 0 {
      assert a + b == b;
    } else {
      assert (a + b)[1..] == a[1..] + b;
      PriorityAlterationsAppend(a[1..], b);
    }
  }

  /** `sep.join(parts)`. */
  function Join(parts: seq<string>, sep: string): (s: string)
    ensures |parts| == 1 ==> s == parts[0]
  {
    if |parts| == 0 then ""
    else if |parts| == 1 then parts[0]
    else parts[0] + sep + Join(parts[1..], sep)
  }

  /** The join is empty exactly when there is nothing to join, if no part is empty. */
  lemma {:induction false} JoinEmpty(parts: seq<string>, sep: string)
    requires forall i :: 0 <= i < |parts| ==> |parts[i]| > 0
    ensures Join(parts, sep) == "" <==> |parts| == 0
  {
    if |parts| > 1 {
      assert |Join(parts, sep)| >= |parts[0]|;
    }
  }

  /** One line of the special instructions. */
  datatype Instruction =
    | GroomPriority | CoordinateWithGroom | CeremonyComfort
    | FormalAppearance | BlackTieStyling
    | PriorityList(alts: seq<Alteration>)

  function TagTexts(alts: seq<Alteration>): (r: seq<string>)
    ensures |r| == |alts|
    ensures forall i :: 0 <= i < |alts| ==> r[i] == Text(alts[i])
  {
    if |alts| == 0 then [] else [Text(alts[0])] + TagTexts(alts[1..])
  }

  function InstructionText(i: Instruction): (s: string)
    ensures |s| > 0
  {
    match i
    case GroomPriority => "PRIORITY: Groom order - ensure perfect fit for photos"
    case CoordinateWithGroom => "Coordinate with groom sizing for optimal photos"
    case CeremonyComfort => "Comfort fit for long ceremony duration"
    case FormalAppearance => "Formal occasion - ensure crisp, professional appearance"
    case BlackTieStyling => "Black tie event - classic, elegant styling required"
    case PriorityList(alts) => "Priority alterations: " + Join(TagTexts(alts), ", ")
  }

  /** The line for the member's role, if the role has one. */
  function RoleLine(role: Role): (r: Option<Instruction>)
    ensures r == Some(GroomPriority) <==> role == Groom
    ensures r == Some(CoordinateWithGroom) <==> role == BestMan
    ensures r == Some(CeremonyComfort) <==> role == FatherOfBride || role == FatherOfGroom
    ensures r.None? <==> role !in {Groom, BestMan, FatherOfBride, FatherOfGroom}
  {
    if role == Groom then Some(GroomPriority)
    else if role == BestMan then Some(CoordinateWithGroom)
    else if role == FatherOfBride || role == FatherOfGroom then Some(CeremonyComfort)
    else None
  }

  /** The line for the wedding style, if the style has one. */
  function StyleLine(style: Style): (r: Option<Instruction>)
    ensures r == Some(FormalAppearance) <==> style == Formal
    ensures r == Some(BlackTieStyling) <==> style == BlackTie
    ensures r.None? <==> style !in {Formal, BlackTie}
  {
    if style == Formal then Some(FormalAppearance)
    else if style == BlackTie then Some(BlackTieStyling)
    else None
  }

  function Lines(o: Option<Instruction>): (r: seq<Instruction>)
    ensures o.None? <==> r == []
    ensures o.Some? ==> r == [o.value]
  {
    if o.Some? then [o.value] else []
  }

  /**
   * The instruction lines: the role's line, the style's line, then the list of
   * priority alterations when there is at least one.
   */
  function Instructions(role: Role, style: Style, priority: seq<Alteration>): (r: seq<Instruction>)
    ensures |r| <= 3
  {
    Lines(RoleLine(role)) + Lines(StyleLine(style)) + (if priority != [] then [PriorityList(priority)] else [])
  }

  /** Each role and style line appears exactly when the role or style calls for it. */
  lemma InstructionsByRoleAndStyle(role: Role, style: Style, priority: seq<Alteration>)
    ensures var r := Instructions(role, style, priority);
      && (GroomPriority in r <==> role == Groom)
      && (CoordinateWithGroom in r <==> role == BestMan)
      && (CeremonyComfort in r <==> role == FatherOfBride || role == FatherOfGroom)
      && (FormalAppearance in r <==> style == Formal)
      && (BlackTieStyling in r <==> style == BlackTie)
  {
  }

  /**
   * The priority line carries the priority alterations, and appears exactly when
   * there is at least one.
   */
  lemma InstructionsPriorityList(role: Role, style: Style, priority: seq<Alteration>)
    ensures var r := Instructions(role, style, priority);
      && (forall i :: 0 <= i < |r| && r[i].PriorityList? ==> r[i].alts == priority != [])
      && ((exists i :: 0 <= i < |r| && r[i].PriorityList?) <==> priority != [])
  {
    var r := Instructions(role, style, priority);
    if priority != [] {
      assert r[|r| - 1].PriorityList?;
    }
  }

  function Texts(lines: seq<Instruction>): (r: seq<string>)
    ensures |r| == |lines|
    ensures forall i :: 0 <= i < |lines| ==> r[i] == InstructionText(lines[i])
  {
    if |lines| == 0 then [] else [InstructionText(lines[0])] + Texts(lines[1..])
  }

  /**
   * `_generate_special_instructions`: the lines joined by "; ", the priority
   * line listing the alterations that mention a wedding, photos or comfort.
   */
  function SpecialInstructions(role: Role, style: Style, alts: seq<Alteration>): (text: string)
    ensures text == "" <==>
      && role !in {Groom, BestMan, FatherOfBride, FatherOfGroom}
      && style !in {Formal, BlackTie}
      && PriorityAlterations(alts) == []
  {
    JoinEmpty(Texts(Instructions(role, style, PriorityAlterations(alts))), "; ");
    Join(Texts(Instructions(role, style, PriorityAlterations(alts))), "; ")
  }

  /**
   * The instructions are empty exactly when the role and style call for no line
   * and no alteration is a priority.
   */
  lemma SpecialInstructionsEmpty(role: Role, style: Style, alts: seq<Alteration>)
    ensures SpecialInstructions(role, style, alts) == "" <==>
      && role !in {Groom, BestMan, FatherOfBride, FatherOfGroom}
      && style !in {Formal, BlackTie}
      && PriorityAlterations(alts) == []
  {
    var lines := Instructions(role, style, PriorityAlterations(alts));
    JoinEmpty(Texts(lines), "; ");
  }

  // ---------------------------------------------------------------------------
  // Building the order

  /** The order line for one member and their recommendation. */
  function ItemFor(member: Member, rec: Recommendation, details: Details, daysUntil: int): (item: OrderItem)
    ensures item.memberId == member.id && item.memberName == member.name
    ensures item.productType == ProductFor(member.role, details.style)
    ensures item.size == rec.size && item.alterations == rec.alterations
    ensures item.fitPreference == member.fitPreference
    ensures item.delivery == DeliveryDate(details.date, daysUntil)
    ensures item.color == ColorFor(details)
    ensures item.specialInstructions == SpecialInstructions(member.role, rec.style, rec.alterations)
    ensures item.specialInstructions == "" <==>
      && member.role !in {Groom, BestMan, FatherOfBride, FatherOfGroom}
      && rec.style !in {Formal, BlackTie}
      && PriorityAlterations(rec.alterations) == []
  {
    SpecialInstructionsEmpty(member.role, rec.style, rec.alterations);
    OrderItem(member.id, member.name, ProductFor(member.role, details.style), rec.size,
              member.fitPreference, ColorFor(details),
              SpecialInstructions(member.role, rec.style, rec.alterations),
              rec.alterations, DeliveryDate(details.date, daysUntil))
  }

  /**
   * The values of a list of results, or the first error among them: the order
   * is abandoned at the first member whose recommendation fails.
   */
  function Collect<T(==), E(==)>(results: seq<Result<T, E>>): (r: Result<seq<T>, E>)
    ensures r.Ok? ==> |r.value| == |results| && forall i :: 0 <= i < |results| ==> results[i] == Ok(r.value[i])
    ensures r.Err? <==> exists i :: 0 <= i < |results| && results[i].Err?
    ensures r.Err? ==> exists i :: (0 <= i < |results| && results[i] == Err(r.error) &&
      forall j :: 0 <= j < i ==> results[j].Ok?)
  {
    if |results| == 0 then Ok([])
    else if results[0].Err? then Err(results[0].error)
    else
      var tail := Collect(results[1..]);
      assert forall i :: 1 <= i < |results| ==> results[i] == results[1..][i - 1];
      if tail.Err? then
        var k :| 0 <= k < |results[1..]| && results[1..][k] == Err(tail.error) &&
          forall j :: 0 <= j < k ==> results[1..][j].Ok?;
        assert results[k + 1] == Err(tail.error);
        Err(tail.error)
      else Ok([results[0].value] + tail.value)
  }

  /** Each member's recommendation, in member order; `draws` holds their fit-shift draws. */
  function MemberRecommendations(members: seq<Member>, details: Details, draws: seq<real>)
    : (r: seq<Result<Recommendation, WeddingError>>)
    requires |draws| == |members|
    ensures |r| == |members|
    ensures forall i :: 0 <= i < |members| ==> r[i] == RoleBasedRecommendation(members[i], details, draws[i])
  {
    seq(|members|, i requires 0 <= i < |members| => RoleBasedRecommendation(members[i], details, draws[i]))
  }

  /** One order item per member and recommendation, in order. */
  function ItemsFor(members: seq<Member>, recs: seq<Recommendation>, details: Details, daysUntil: int)
    : (items: seq<OrderItem>)
    requires |recs| == |members|
    ensures |items| == |members|
    ensures forall i :: 0 <= i < |members| ==> items[i] == ItemFor(members[i], recs[i], details, daysUntil)
  {
    if |members| == 0 then []
    else [ItemFor(members[0], recs[0], details, daysUntil)] + ItemsFor(members[1..], recs[1..], details, daysUntil)
  }

  /** A member's recommendation fails exactly when they are a ring bearer or have zero height. */
  lemma MemberFailures(group: WeddingGroup, draws: seq<real>)
    requires |draws| == |group.members|
    ensures var results := MemberRecommendations(group.members, group.details, draws);
      forall i :: 0 <= i < |group.members| ==>
        (results[i].Err? <==> group.members[i].role == RingBearer || group.members[i].height == 0.0)
  {
    forall i | 0 <= i < |group.members|
      ensures RoleBasedRecommendation(group.members[i], group.details, draws[i]).Err? <==>
        (group.members[i].role == RingBearer || group.members[i].height == 0.0)
    {
      OnlyRingBearerOrZeroHeightFails(group.members[i], group.details, draws[i]);
    }
  }

  /**
   * `create_wedding_order`: one item per member added to a new pending order.
   * It fails exactly when some member has no recommendation (a ring bearer or a
   * zero height).
   */
  function CreateWeddingOrder(orderId: string, group: WeddingGroup, draws: seq<real>, today: int, daysUntil: int)
    : (r: Result<Order, WeddingError>)
    requires |draws| == |group.members|
    ensures r.Err? <==> exists i :: (0 <= i < |group.members| &&
      (group.members[i].role == RingBearer || group.members[i].height == 0.0))
    ensures r.Ok? ==> r.value.group == group && r.value.status == Pending && |r.value.items| == |group.members|
    ensures r.Ok? ==> TotalsReflectItems(r.value)
  {
    var results := MemberRecommendations(group.members, group.details, draws);
    MemberFailures(group, draws);
    match Collect(results)
    case Err(e) => Err(e)
    case Ok(recs) =>
      var items := ItemsFor(group.members, recs, group.details, daysUntil);
      AddItemsAppends(NewOrder(orderId, group), items, today);
      Ok(AddItems(NewOrder(orderId, group), items, today))
  }

  /**
   * Each item of a created order is the member's line: their size and
   * alterations from their recommendation, the product for the style, and the
   * delivery date for the wedding.
   */
  lemma CreateWeddingOrderItems(orderId: string, group: WeddingGroup, draws: seq<real>, today: int, daysUntil: int)
    requires |draws| == |group.members|
    ensures var r := CreateWeddingOrder(orderId, group, draws, today, daysUntil);
      r.Ok? ==> forall i :: 0 <= i < |group.members| ==>
        var rec := RoleBasedRecommendation(group.members[i], group.details, draws[i]);
        rec.Ok? && r.value.items[i] == ItemFor(group.members[i], rec.value, group.details, daysUntil)
  {
    var results := MemberRecommendations(group.members, group.details, draws);
    var collected := Collect(results);
    if collected.Ok? {
      var recs := collected.value;
      var items := ItemsFor(group.members, recs, group.details, daysUntil);
      AddItemsAppends(NewOrder(orderId, group), items, today);
      assert CreateWeddingOrder(orderId, group, draws, today, daysUntil).value.items == items;
      forall i | 0 <= i < |group.members|
        ensures RoleBasedRecommendation(group.members[i], group.details, draws[i]) == Ok(recs[i])
      {
        assert results[i] == Ok(recs[i]);
      }
    }
  }

  // ---------------------------------------------------------------------------
  // Next steps

  datatype NextStep =
    | ConfirmAndSubmit | AwaitReview | ScheduleInitialFittings
    | ReviewCoordination
    | PlanFittingSchedule | ScheduleFittingsSoon | ExpediteOrder

  predicate IsTimelineStep(s: NextStep) {
    s == PlanFittingSchedule || s == ScheduleFittingsSoon || s == ExpediteOrder
  }

  /** The timeline step: over 60 days, over 30 days, or expedite. */
  function TimelineStep(daysUntil: int): (s: NextStep)
    ensures IsTimelineStep(s)
    ensures s == ExpediteOrder <==> daysUntil <= 30
    ensures s == PlanFittingSchedule <==> daysUntil > 60
  {
    if daysUntil > 60 then PlanFittingSchedule
    else if daysUntil > 30 then ScheduleFittingsSoon
    else ExpediteOrder
  }

  /** `_get_next_steps`: status steps, the review step below 0.8, then one timeline step. */
  function NextSteps(status: OrderStatus, overallScore: real, daysUntil: int): (steps: seq<NextStep>)
    ensures |steps| >= 1 && steps[|steps| - 1] == TimelineStep(daysUntil)
    ensures ReviewCoordination in steps <==> overallScore < 0.8
    ensures ConfirmAndSubmit in steps <==> status == Pending
    ensures AwaitReview in steps <==> status == Confirmed
    ensures ScheduleInitialFittings in steps <==> status == Confirmed
  {
    var byStatus :=
      if status == Pending then [ConfirmAndSubmit]
      else if status == Confirmed then [AwaitReview, ScheduleInitialFittings]
      else [];
    var review := if overallScore < 0.8 then [ReviewCoordination] else [];
    byStatus + review + [TimelineStep(daysUntil)]
  }

  /** Exactly one timeline step, always the last. */
  lemma OneTimelineStep(status: OrderStatus, overallScore: real, daysUntil: int)
    ensures var steps := NextSteps(status, overallScore, daysUntil);
      forall i :: 0 <= i < |steps| ==> (IsTimelineStep(steps[i]) <==> i == |steps| - 1)
  {
  }
}
