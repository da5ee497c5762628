/**
 * The four-field minimal sizing input: height, weight, fit style and body type,
 * with optional measurements and wedding details. Validation separates hard
 * errors from advisory warnings; the enhancement tier sets the expected accuracy.
 */
module MinimalInput {
  import opened Wrappers
  import opened Values

  /**
   * A minimal input. Height and weight have been through `float(...)`; the other
   * fields keep whatever value the request carried. Absent wedding fields are
   * `Null`, as Python's `None`.
   */
  datatype Input = Input(
    height: real, weight: real, fitStyle: Value, bodyType: Value,
    chest: Option<real>, waist: Option<real>, sleeve: Option<real>, inseam: Option<real>,
    weddingRole: Value, weddingDate: Value, weddingStyle: Value, unit: Value)

  datatype InputError =
    | HeightRequired | WeightRequired
    | FitStyleRequired | FitStyleInvalid
    | BodyTypeRequired | BodyTypeInvalid

  datatype InputWarning =
    | HeightUnusual | WeightUnusual | IncompleteMeasurements | RoleMayAffectAccuracy

  datatype InputLevel = Basic | Advanced

  datatype Validation = Validation(
    valid: bool, errors: seq<InputError>, warnings: seq<InputWarning>, level: InputLevel)

  const FitStyles: set<string> := {"slim", "regular", "relaxed"}
  const BodyTypes: set<string> := {"athletic", "regular", "broad"}
  const KnownRoles: set<string> := {"groom", "best_man", "groomsman", "father_of_groom", "father_of_bride", "usher"}

  /** `v in [...]` against a list of strings: only text can match. */
  predicate OneOf(v: Value, options: set<string>) {
    v.Text? && v.s in options
  }

  function Present(m: Option<real>): nat {
    if m.Some? then 1 else 0
  }

  /** How many of chest, waist, sleeve and inseam were given. */
  function MeasurementCount(i: Input): (n: nat)
    ensures n <= 4
    ensures n == 4 <==> i.chest.Some? && i.waist.Some? && i.sleeve.Some? && i.inseam.Some?
    ensures n == 0 <==> i.chest.None? && i.waist.None? && i.sleeve.None? && i.inseam.None?
  {
    Present(i.chest) + Present(i.waist) + Present(i.sleeve) + Present(i.inseam)
  }

  /** The error for a required choice field: missing (falsy) or not an allowed option. */
  function ChoiceErrors(v: Value, options: set<string>, missing: InputError, invalid: InputError)
    : (errs: seq<InputError>)
    requires missing != invalid && "" !in options
    ensures errs == [] <==> OneOf(v, options)
    ensures errs == [missing] <==> !Truthy(v)
    ensures errs == [invalid] <==> Truthy(v) && !OneOf(v, options)
  {
    if !Truthy(v) then [missing] else if !OneOf(v, options) then [invalid] else []
  }

  function HeightChecks(h: real): (r: (seq<InputError>, seq<InputWarning>)) {
    if h <= 0.0 then ([HeightRequired], [])
    else if h < 100.0 || h > 250.0 then ([], [HeightUnusual])
    else ([], [])
  }

  function WeightChecks(w: real): (r: (seq<InputError>, seq<InputWarning>)) {
    if w <= 0.0 then ([WeightRequired], [])
    else if w < 30.0 || w > 200.0 then ([], [WeightUnusual])
    else ([], [])
  }

  /** `validate_minimal_input`. */
  function Validate(i: Input): (v: Validation)
    ensures v.valid <==> v.errors == []
    ensures v.level == Advanced <==> MeasurementCount(i) == 4
    ensures |v.errors| <= 4 && |v.warnings| <= 4
  {
    var hc := HeightChecks(i.height);
    var wc := WeightChecks(i.weight);
    var errors := hc.0 + wc.0
      + ChoiceErrors(i.fitStyle, FitStyles, FitStyleRequired, FitStyleInvalid)
      + ChoiceErrors(i.bodyType, BodyTypes, BodyTypeRequired, BodyTypeInvalid);
    var count := MeasurementCount(i);
    var warnings := hc.1 + wc.1
      + (if 0 < count < 4 then [IncompleteMeasurements] else [])
      + (if Truthy(i.weddingRole) && !OneOf(i.weddingRole, KnownRoles) then [RoleMayAffectAccuracy] else []);
    Validation(|errors| == 0, errors, warnings, if count >= 4 then Advanced else Basic)
  }

  /**
   * The input is valid exactly when height and weight are positive and fit style
   * and body type are among their options; nothing else can make it invalid.
   */
  lemma ValidIff(i: Input)
    ensures Validate(i).valid <==>
      i.height > 0.0 && i.weight > 0.0 && OneOf(i.fitStyle, FitStyles) && OneOf(i.bodyType, BodyTypes)
  {
  }

  /** The errors of a validation as the concatenation of the per-field checks. */
  lemma ErrorsSplit(i: Input)
    ensures Validate(i).errors ==
      HeightChecks(i.height).0 + WeightChecks(i.weight).0
      + ChoiceErrors(i.fitStyle, FitStyles, FitStyleRequired, FitStyleInvalid)
      + ChoiceErrors(i.bodyType, BodyTypes, BodyTypeRequired, BodyTypeInvalid)
  {
  }

  /** The field an error is about, in the order the validator checks the fields. */
  function FieldRank(e: InputError): nat {
    match e
    case HeightRequired => 0
    case WeightRequired => 1
    case FitStyleRequired => 2
    case FitStyleInvalid => 2
    case BodyTypeRequired => 3
    case BodyTypeInvalid => 3
  }

  /**
   * The errors follow the field order height, weight, fit style, body type, with
   * at most one error per field: a height error comes first and a body-type
   * error comes last whenever they are present.
   */
  lemma ErrorsInFieldOrder(i: Input)
    ensures var e := Validate(i).errors;
      forall a, b :: 0 <= a < b < |e| ==> FieldRank(e[a]) < FieldRank(e[b])
    ensures i.height <= 0.0 ==> Validate(i).errors[0] == HeightRequired
    ensures !OneOf(i.bodyType, BodyTypes) ==>
      var e := Validate(i).errors;
      |e| > 0 && FieldRank(e[|e| - 1]) == 3
  {
    ErrorsSplit(i);
    var h := HeightChecks(i.height).0;
    var w := WeightChecks(i.weight).0;
    var f := ChoiceErrors(i.fitStyle, FitStyles, FitStyleRequired, FitStyleInvalid);
    var t := ChoiceErrors(i.bodyType, BodyTypes, BodyTypeRequired, BodyTypeInvalid);
    var e := h + w + f + t;
    assert |h| <= 1 && |w| <= 1 && |f| <= 1 && |t| <= 1;
    assert forall k :: 0 <= k < |h| ==> FieldRank(h[k]) == 0;
    assert forall k :: 0 <= k < |w| ==> FieldRank(w[k]) == 1;
    assert forall k :: 0 <= k < |f| ==> FieldRank(f[k]) == 2;
    assert forall k :: 0 <= k < |t| ==> FieldRank(t[k]) == 3;
    forall a, b | 0 <= a < b < |e|
      ensures FieldRank(e[a]) < FieldRank(e[b])
    {
      RankAt(h, w, f, t, a);
      RankAt(h, w, f, t, b);
    }
    if !OneOf(i.bodyType, BodyTypes) {
      assert |t| == 1;
      RankAt(h, w, f, t, |e| - 1);
    }
  }

  /** An index into the four concatenated blocks lands in the block its position names. */
  lemma RankAt(h: seq<InputError>, w: seq<InputError>, f: seq<InputError>, t: seq<InputError>, k: int)
    requires |h| <= 1 && |w| <= 1 && |f| <= 1 && |t| <= 1
    requires forall x :: 0 <= x < |h| ==> FieldRank(h[x]) == 0
    requires forall x :: 0 <= x < |w| ==> FieldRank(w[x]) == 1
    requires forall x :: 0 <= x < |f| ==> FieldRank(f[x]) == 2
    requires forall x :: 0 <= x < |t| ==> FieldRank(t[x]) == 3
    requires 0 <= k < |h + w + f + t|
    ensures FieldRank((h + w + f + t)[k]) ==
      if k < |h| then 0 else if k < |h| + |w| then 1 else if k < |h| + |w| + |f| then 2 else 3
  {
  }

  /** A height or weight error appears exactly for a non-positive value. */
  lemma MeasureErrorCauses(i: Input)
    ensures var e := Validate(i).errors;
      && (HeightRequired in e <==> i.height <= 0.0)
      && (WeightRequired in e <==> i.weight <= 0.0)
  {
    ErrorsSplit(i);
  }

  /** A fit-style error names whether the value was missing or not allowed. */
  lemma FitStyleErrorCauses(i: Input)
    ensures var e := Validate(i).errors;
      && (FitStyleRequired in e <==> !Truthy(i.fitStyle))
      && (FitStyleInvalid in e <==> Truthy(i.fitStyle) && !OneOf(i.fitStyle, FitStyles))
  {
    ErrorsSplit(i);
    var fit := ChoiceErrors(i.fitStyle, FitStyles, FitStyleRequired, FitStyleInvalid);
    var body := ChoiceErrors(i.bodyType, BodyTypes, BodyTypeRequired, BodyTypeInvalid);
    var measures := HeightChecks(i.height).0 + WeightChecks(i.weight).0;
    assert FitStyleRequired !in measures && FitStyleInvalid !in measures;
    assert FitStyleRequired !in body && FitStyleInvalid !in body;
  }

  /** A body-type error names whether the value was missing or not allowed. */
  lemma BodyTypeErrorCauses(i: Input)
    ensures var e := Validate(i).errors;
      && (BodyTypeRequired in e <==> !Truthy(i.bodyType))
      && (BodyTypeInvalid in e <==> Truthy(i.bodyType) && !OneOf(i.bodyType, BodyTypes))
  {
    ErrorsSplit(i);
    var fit := ChoiceErrors(i.fitStyle, FitStyles, FitStyleRequired, FitStyleInvalid);
    var measures := HeightChecks(i.height).0 + WeightChecks(i.weight).0;
    assert BodyTypeRequired !in measures && BodyTypeInvalid !in measures;
    assert BodyTypeRequired !in fit && BodyTypeInvalid !in fit;
  }

  /**
   * An unusual height or weight only warns: it appears for a positive value
   * outside 100-250 cm or 30-200 kg and never turns into an error.
   */
  lemma RangesOnlyWarn(i: Input)
    ensures var v := Validate(i);
      && (HeightUnusual in v.warnings <==> i.height > 0.0 && (i.height < 100.0 || i.height > 250.0))
      && (WeightUnusual in v.warnings <==> i.weight > 0.0 && (i.weight < 30.0 || i.weight > 200.0))
  {
  }

  /** Changing a positive height or weight never changes validity. */
  lemma ValidityIgnoresMagnitude(i: Input, h: real, w: real)
    requires i.height > 0.0 && i.weight > 0.0 && h > 0.0 && w > 0.0
    ensures Validate(i.(height := h, weight := w)).valid == Validate(i).valid
  {
    ValidIff(i);
    ValidIff(i.(height := h, weight := w));
  }

  /** One to three measurements draw the completeness warning. */
  lemma MeasurementWarning(i: Input)
    ensures IncompleteMeasurements in Validate(i).warnings <==> 0 < MeasurementCount(i) < 4
  {
  }

  /** A truthy wedding role that is not a known role only warns. */
  lemma UnknownRoleWarning(i: Input)
    ensures RoleMayAffectAccuracy in Validate(i).warnings <==>
      Truthy(i.weddingRole) && !OneOf(i.weddingRole, KnownRoles)
    ensures Validate(i.(weddingRole := Null)).valid == Validate(i).valid
  {
  }

  // ---------------------------------------------------------------------------
  // Enhancement level

  datatype Tier = Full | WeddingEnhanced | BasicTier

  function AccuracyLabel(t: Tier): string {
    match t
    case Full => "95%+"
    case WeddingEnhanced => "93%"
    case BasicTier => "91%"
  }

  function TierConfidence(t: Tier): (c: real)
    ensures 0.91 <= c <= 0.95
  {
    match t
    case Full => 0.95
    case WeddingEnhanced => 0.93
    case BasicTier => 0.91
  }

  /** `get_enhancement_level`: all four measurements win, then a wedding role. */
  function EnhancementLevel(i: Input): (t: Tier)
    ensures t == Full <==> MeasurementCount(i) == 4
    ensures t == WeddingEnhanced <==> MeasurementCount(i) < 4 && Truthy(i.weddingRole)
    ensures t == BasicTier <==> MeasurementCount(i) < 4 && !Truthy(i.weddingRole)
  {
    if MeasurementCount(i) >= 4 then Full
    else if Truthy(i.weddingRole) then WeddingEnhanced
    else BasicTier
  }

  /** The full tier is exactly the advanced input level of validation. */
  lemma TierMatchesInputLevel(i: Input)
    ensures EnhancementLevel(i) == Full <==> Validate(i).level == Advanced
  {
  }

  /**
   * The accuracy label follows the validator's input level and the wedding role:
   * "95%+" exactly for advanced input, otherwise "93%" exactly when a role is
   * given. A role the validator warns about still earns the wedding tier.
   */
  lemma AccuracyLabelByInput(i: Input)
    ensures AccuracyLabel(EnhancementLevel(i)) == "95%+" <==> Validate(i).level == Advanced
    ensures AccuracyLabel(EnhancementLevel(i)) == "93%" <==>
      Validate(i).level == Basic && Truthy(i.weddingRole)
    ensures AccuracyLabel(EnhancementLevel(i)) == "91%" <==>
      Validate(i).level == Basic && !Truthy(i.weddingRole)
    ensures RoleMayAffectAccuracy in Validate(i).warnings && Validate(i).level == Basic ==>
      EnhancementLevel(i) == WeddingEnhanced
  {
    TierMatchesInputLevel(i);
    UnknownRoleWarning(i);
  }

  /** More information never lowers the expected confidence. */
  lemma MoreInformationNeverLowersConfidence(i: Input, j: Input)
    requires i.chest.Some? ==> j.chest.Some?
    requires i.waist.Some? ==> j.waist.Some?
    requires i.sleeve.Some? ==> j.sleeve.Some?
    requires i.inseam.Some? ==> j.inseam.Some?
    requires Truthy(i.weddingRole) ==> Truthy(j.weddingRole)
    ensures TierConfidence(EnhancementLevel(i)) <= TierConfidence(EnhancementLevel(j))
  {
  }

  // ---------------------------------------------------------------------------
  // Conversion to a wedding party member record

  /** The wedding-party member record the minimal input becomes. */
  datatype MemberRecord = MemberRecord(
    id: string, name: string, role: Value, height: real, weight: real,
    fitPreference: Value, unit: Value, bodyType: Value, specialRequirements: seq<string>)

  /**
   * `to_wedding_party_member_format`; `objectId` stands for Python's `id(self)`.
   * A missing or empty role becomes "groom".
   */
  function ToMemberRecord(i: Input, objectId: string): (m: MemberRecord)
    ensures m.role == (if Truthy(i.weddingRole) then i.weddingRole else Text("groom"))
    ensures Truthy(m.role)
    ensures m.fitPreference == i.fitStyle && m.bodyType == i.bodyType && m.unit == i.unit
    ensures m.height == i.height && m.weight == i.weight
    ensures m.id == "minimal_" + objectId && m.specialRequirements == []
  {
    MemberRecord("minimal_" + objectId, "Minimal Input User",
                 if Truthy(i.weddingRole) then i.weddingRole else Text("groom"),
                 i.height, i.weight, i.fitStyle, i.unit, i.bodyType, [])
  }

  /** The member record's role is a known role whenever validation gave no role warning. */
  lemma MemberRoleKnownWithoutWarning(i: Input, objectId: string)
    requires RoleMayAffectAccuracy !in Validate(i).warnings
    ensures OneOf(ToMemberRecord(i, objectId).role, KnownRoles)
  {
    UnknownRoleWarning(i);
  }

  // ---------------------------------------------------------------------------
  // Construction from a request dictionary

  datatype DictError = MissingField(field: string) | NotANumber(field: string)

  const RequiredFields: seq<string> := ["height", "weight", "fit_style", "body_type"]

  /** The first required field the dictionary lacks, if any. */
  function FirstMissing(data: map<string, Value>, fields: seq<string>): (r: Option<string>)
    ensures r.Some? ==> r.value in fields && r.value !in data
    ensures r.None? <==> forall i :: 0 <= i < |fields| ==> fields[i] in data
  {
    if |fields| == 0 then None
    else if fields[0] !in data then Some(fields[0])
    else FirstMissing(data, fields[1..])
  }

  /** An optional measurement: absent stays absent, present must convert. */
  function OptionalNumber(data: map<string, Value>, key: string): (r: Result<Option<real>, DictError>)
    ensures key !in data ==> r == Ok(None)
    ensures key in data ==> (r.Ok? <==> ToFloat(data[key]).Some?)
    ensures key in data && r.Ok? ==> r.value == ToFloat(data[key])
  {
    if key !in data then Ok(None)
    else match ToFloat(data[key])
      case Some(x) => Ok(Some(x))
      case None => Err(NotANumber(key))
  }

  /** `create_minimal_input_from_dict`. */
  function FromDict(data: map<string, Value>): (r: Result<Input, DictError>)
    ensures FirstMissing(data, RequiredFields).Some? ==> r == Err(MissingField(FirstMissing(data, RequiredFields).value))
    ensures r.Ok? ==> forall k :: k in RequiredFields ==> k in data
    ensures r.Ok? ==> Some(r.value.height) == ToFloat(data["height"]) && Some(r.value.weight) == ToFloat(data["weight"])
    ensures r.Ok? ==> r.value.fitStyle == data["fit_style"] && r.value.bodyType == data["body_type"]
    ensures r.Ok? ==> r.value.unit == Get(data, "unit", Text("metric"))
    ensures r.Ok? ==> r.value.weddingRole == Get(data, "wedding_role", Null)
    ensures r.Ok? ==> r.value.weddingDate == Get(data, "wedding_date", Null)
    ensures r.Ok? ==> r.value.weddingStyle == Get(data, "wedding_style", Null)
    ensures r.Ok? ==> ("chest" !in data <==> r.value.chest.None?) && ("inseam" !in data <==> r.value.inseam.None?)
    ensures r.Ok? ==> ("waist" !in data <==> r.value.waist.None?) && ("sleeve" !in data <==> r.value.sleeve.None?)
  {
    var missing := FirstMissing(data, RequiredFields);
    if missing.Some? then Err(MissingField(missing.value))
    else
      assert RequiredFields[0] in data && RequiredFields[1] in data;
      assert RequiredFields[2] in data && RequiredFields[3] in data;
      var height := ToFloat(data["height"]);
      var weight := ToFloat(data["weight"]);
      if height.None? then Err(NotANumber("height"))
      else if weight.None? then Err(NotANumber("weight"))
      else
        var chest := OptionalNumber(data, "chest");
        var waist := OptionalNumber(data, "waist");
        var sleeve := OptionalNumber(data, "sleeve");
        var inseam := OptionalNumber(data, "inseam");
        if chest.Err? then Err(chest.error)
        else if waist.Err? then Err(waist.error)
        else if sleeve.Err? then Err(sleeve.error)
        else if inseam.Err? then Err(inseam.error)
        else Ok(Input(height.value, weight.value, data["fit_style"], data["body_type"],
                      chest.value, waist.value, sleeve.value, inseam.value,
                      Get(data, "wedding_role", Null), Get(data, "wedding_date", Null),
                      Get(data, "wedding_style", Null), Get(data, "unit", Text("metric"))))
  }

  /** A conversion failure names a field that is present but not a number. */
  lemma FromDictFailures(data: map<string, Value>)
    ensures var r := FromDict(data);
      r.Err? && r.error.NotANumber? ==>
        r.error.field in data && ToFloat(data[r.error.field]).None?
        && r.error.field in {"height", "weight", "chest", "waist", "sleeve", "inseam"}
  {
    if FirstMissing(data, RequiredFields).None? {
      assert RequiredFields[0] in data && RequiredFields[1] in data;
    }
  }

  function Put(d: map<string, Value>, key: string, v: Option<real>): map<string, Value> {
    if v.Some? then d[key := Number(v.value)] else d
  }

  /** The request dictionary for an input: the optional measurements only when given. */
  function ToRequest(i: Input): (d: map<string, Value>)
    ensures forall k :: k in RequiredFields ==> k in d
  {
    var base := map[
      "height" := Number(i.height), "weight" := Number(i.weight),
      "fit_style" := i.fitStyle, "body_type" := i.bodyType,
      "wedding_role" := i.weddingRole, "wedding_date" := i.weddingDate,
      "wedding_style" := i.weddingStyle, "unit" := i.unit];
    Put(Put(Put(Put(base, "chest", i.chest), "waist", i.waist), "sleeve", i.sleeve), "inseam", i.inseam)
  }

  /** The required and wedding entries of an input's request dictionary. */
  lemma ToRequestRequired(i: Input)
    ensures var d := ToRequest(i);
      && d["height"] == Number(i.height) && d["weight"] == Number(i.weight)
      && d["fit_style"] == i.fitStyle && d["body_type"] == i.bodyType
      && Get(d, "wedding_role", Null) == i.weddingRole && Get(d, "wedding_date", Null) == i.weddingDate
      && Get(d, "wedding_style", Null) == i.weddingStyle && Get(d, "unit", Text("metric")) == i.unit
  {
  }

  /** The measurement entries of an input's request dictionary: present exactly when given. */
  lemma ToRequestMeasurements(i: Input)
    ensures var d := ToRequest(i);
      && ("chest" in d <==> i.chest.Some?) && (i.chest.Some? ==> d["chest"] == Number(i.chest.value))
      && ("waist" in d <==> i.waist.Some?) && (i.waist.Some? ==> d["waist"] == Number(i.waist.value))
      && ("sleeve" in d <==> i.sleeve.Some?) && (i.sleeve.Some? ==> d["sleeve"] == Number(i.sleeve.value))
      && ("inseam" in d <==> i.inseam.Some?) && (i.inseam.Some? ==> d["inseam"] == Number(i.inseam.value))
  {
  }

  /** Reading the request dictionary of an input gives the input back. */
  lemma FromRequestRoundTrip(i: Input)
    ensures FromDict(ToRequest(i)) == Ok(i)
  {
    var d := ToRequest(i);
    ToRequestRequired(i);
    ToRequestMeasurements(i);
    assert FirstMissing(d, RequiredFields) == None;
    assert OptionalNumber(d, "chest") == Ok(i.chest);
    assert OptionalNumber(d, "waist") == Ok(i.waist);
    assert OptionalNumber(d, "sleeve") == Ok(i.sleeve);
    assert OptionalNumber(d, "inseam") == Ok(i.inseam);
  }
}
