/**
 * The request gate of the ML backend: input validation with defaults and range
 * checks, a per-client fixed-window rate limiter, the cache time-to-live, and
 * the confidence warning or notice attached to a response. Clock readings are
 * parameters (`now`, seconds since the epoch).
 */
module Backend {
  import opened Wrappers
  import opened Values

  // ---------------------------------------------------------------------------
  // validate_input

  datatype RequestError =
    | HeightRequired | HeightNotNumber
    | WeightRequired | WeightNotNumber
    | FitInvalid | UnitInvalid
    | HeightOutOfRange | WeightOutOfRange

  /** The validated request; height and weight are the raw numbers, not converted. */
  datatype Validated = Validated(height: real, weight: real, fit: string, unit: string)

  const ValidFits: set<string> := {"slim", "regular", "relaxed"}
  const ValidUnits: set<string> := {"metric", "imperial"}

  /** `v in [...]` against a list of strings: only text can match. */
  predicate OneOf(v: Value, options: set<string>) {
    v.Text? && v.s in options
  }

  /**
   * `validate_input`: height, then weight, then fit, then unit, then the ranges;
   * the first failing check gives the error. A missing key and an explicit null
   * are alike. The ranges apply to the numbers as given, whatever the unit.
   */
  function ValidateInput(data: map<string, Value>): (r: Result<Validated, RequestError>)
    ensures r.Ok? ==> 120.0 <= r.value.height <= 250.0 && 40.0 <= r.value.weight <= 200.0
    ensures r.Ok? ==> r.value.fit in ValidFits && r.value.unit in ValidUnits
    ensures r.Ok? ==> Some(r.value.height) == ToFloat(Get(data, "height", Null))
    ensures r.Ok? ==> Some(r.value.weight) == ToFloat(Get(data, "weight", Null))
    ensures r.Ok? ==> Text(r.value.fit) == Get(data, "fit", Text("regular"))
    ensures r.Ok? ==> Text(r.value.unit) == Get(data, "unit", Text("metric"))
  {
    var height := Get(data, "height", Null);
    var weight := Get(data, "weight", Null);
    var fit := Get(data, "fit", Text("regular"));
    var unit := Get(data, "unit", Text("metric"));
    if height.Null? then Err(HeightRequired)
    else if ToFloat(height).None? then Err(HeightNotNumber)
    else if weight.Null? then Err(WeightRequired)
    else if ToFloat(weight).None? then Err(WeightNotNumber)
    else if !OneOf(fit, ValidFits) then Err(FitInvalid)
    else if !OneOf(unit, ValidUnits) then Err(UnitInvalid)
    else
      var h := ToFloat(height).value;
      var w := ToFloat(weight).value;
      if h < 120.0 || h > 250.0 then Err(HeightOutOfRange)
      else if w < 40.0 || w > 200.0 then Err(WeightOutOfRange)
      else Ok(Validated(h, w, fit.s, unit.s))
  }

  /** The conditions under which a request is accepted, and then what it echoes. */
  predicate Acceptable(data: map<string, Value>) {
    var h := ToFloat(Get(data, "height", Null));
    var w := ToFloat(Get(data, "weight", Null));
    && h.Some? && 120.0 <= h.value <= 250.0
    && w.Some? && 40.0 <= w.value <= 200.0
    && OneOf(Get(data, "fit", Text("regular")), ValidFits)
    && OneOf(Get(data, "unit", Text("metric")), ValidUnits)
  }

  /** A request is accepted exactly when it meets every condition. */
  lemma ValidateInputAccepts(data: map<string, Value>)
    ensures ValidateInput(data).Ok? <==> Acceptable(data)
  {
  }

  /** A request without fit or unit gets "regular" and "metric". */
  lemma ValidateInputDefaults(data: map<string, Value>)
    requires "fit" !in data && "unit" !in data
    ensures ValidateInput(data).Ok? ==> ValidateInput(data).value.fit == "regular"
    ensures ValidateInput(data).Ok? ==> ValidateInput(data).value.unit == "metric"
  {
  }

  /**
   * Because the range checks see the raw number, a typical imperial height such
   * as 69 inches is rejected.
   */
  lemma ImperialHeightRejected(weight: real)
    ensures ValidateInput(map["height" := Number(69.0), "weight" := Number(weight),
                              "unit" := Text("imperial")]) == Err(HeightOutOfRange)
  {
  }

  /** Missing or non-numeric values are reported before anything else about that field. */
  lemma ValidateInputFieldErrors(data: map<string, Value>)
    ensures ValidateInput(data) == Err(HeightRequired) <==> Get(data, "height", Null).Null?
    ensures ValidateInput(data) == Err(HeightNotNumber) <==>
      !Get(data, "height", Null).Null? && ToFloat(Get(data, "height", Null)).None?
  {
  }

  // ---------------------------------------------------------------------------
  // Rate limiting

  /** At most this many accepted requests per client per minute window. */
  const RateLimit: nat := 10

  /** Request counts per client, per minute window. */
  type Counts = map<string, map<int, nat>>

  /** `int(now // 60)`. */
  function Window(now: real): int {
    (now / 60.0).Floor
  }

  function CountAt(counts: Counts, client: string, w: int): nat {
    if client in counts && w in counts[client] then counts[client][w] else 0
  }

  /** The client's windows, without those older than the previous minute. */
  function Prune(windows: map<int, nat>, current: int): (p: map<int, nat>)
    ensures forall w :: w in p <==> w in windows && w >= current - 1
    ensures forall w :: w in p ==> p[w] == windows[w]
  {
    map w | w in windows && w >= current - 1 :: windows[w]
  }

  /**
   * `check_rate_limit`: prunes the client's old windows, then accepts and
   * counts the request when the current window holds fewer than ten. The
   * client's entry and the pruning happen even for a rejected request.
   */
  function CheckRateLimit(counts: Counts, client: string, now: real): (r: (bool, Counts))
    ensures client in r.1
    ensures forall c :: c != client ==> (c in r.1 <==> c in counts) && (c in counts ==> r.1[c] == counts[c])
    ensures r.0 <==> CountAt(counts, client, Window(now)) < RateLimit
    ensures CountAt(r.1, client, Window(now)) ==
      if r.0 then CountAt(counts, client, Window(now)) + 1 else CountAt(counts, client, Window(now))
    ensures forall w :: w != Window(now) ==>
      (w in r.1[client] <==> client in counts && w in counts[client] && w >= Window(now) - 1)
    ensures forall w :: w != Window(now) && w in r.1[client] ==> r.1[client][w] == counts[client][w]
  {
    var current := Window(now);
    var windows := if client in counts then counts[client] else map[];
    var pruned := Prune(windows, current);
    var count := if current in pruned then pruned[current] else 0;
    if count >= RateLimit then (false, counts[client := pruned])
    else (true, counts[client := pruned[current := count + 1]])
  }

  /** No window of any client holds more than the limit. */
  predicate WithinLimit(counts: Counts) {
    forall c, w :: c in counts && w in counts[c] ==> counts[c][w] <= RateLimit
  }

  /** The limiter keeps every count within the limit. */
  lemma CheckRateLimitKeepsLimit(counts: Counts, client: string, now: real)
    requires WithinLimit(counts)
    ensures WithinLimit(CheckRateLimit(counts, client, now).1)
  {
    var r := CheckRateLimit(counts, client, now);
    forall c, w | c in r.1 && w in r.1[c]
      ensures r.1[c][w] <= RateLimit
    {
      if c == client && w == Window(now) {
        assert CountAt(r.1, client, w) == r.1[c][w];
      }
    }
  }

  /** Runs a client's requests in order; returns the final counts and how many were accepted. */
  function Requests(counts: Counts, client: string, times: seq<real>): (r: (Counts, nat))
    ensures r.1 <= |times|
    decreases |times|
  {
    if |times| == 0 then (counts, 0)
    else
      var step := CheckRateLimit(counts, client, times[0]);
      var rest := Requests(step.1, client, times[1..]);
      (rest.0, rest.1 + if step.0 then 1 else 0)
  }

  /**
   * Within one minute window, each accepted request adds one to the window's
   * count and the count never passes the limit, so at most ten are accepted.
   */
  lemma {:induction false} OneWindowAccepts(counts: Counts, client: string, times: seq<real>, w: int)
    requires forall i :: 0 <= i < |times| ==> Window(times[i]) == w
    requires CountAt(counts, client, w) <= RateLimit
    ensures var r := Requests(counts, client, times);
      CountAt(r.0, client, w) == CountAt(counts, client, w) + r.1 && CountAt(r.0, client, w) <= RateLimit
    decreases |times|
  {
    if |times| > 0 {
      var step := CheckRateLimit(counts, client, times[0]);
      OneWindowAccepts(step.1, client, times[1..], w);
    }
  }

  /** A client starting a minute with no requests gets at most ten accepted in it. */
  lemma AtMostTenPerWindow(counts: Counts, client: string, times: seq<real>, w: int)
    requires forall i :: 0 <= i < |times| ==> Window(times[i]) == w
    requires CountAt(counts, client, w) == 0
    ensures Requests(counts, client, times).1 <= RateLimit
  {
    OneWindowAccepts(counts, client, times, w);
  }

  /** Once ten requests are counted in a window, every later one in it is rejected. */
  lemma FullWindowRejects(counts: Counts, client: string, now: real)
    requires CountAt(counts, client, Window(now)) >= RateLimit
    ensures !CheckRateLimit(counts, client, now).0
    ensures CountAt(CheckRateLimit(counts, client, now).1, client, Window(now)) == CountAt(counts, client, Window(now))
  {
  }

  // ---------------------------------------------------------------------------
  // Cache time-to-live

  /** Cached responses are fresh for five minutes. */
  const CacheTtl: real := 300.0

  /**
   * `is_cache_valid`: numbers (and booleans, which Python counts as integers)
   * and datetimes are seconds; text goes through the ISO parser, given here as
   * `parseIso`, and is stale when it does not parse; anything else is stale.
   */
  function CacheValid(timestamp: Value, now: real, parseIso: string -> Option<real>): (valid: bool)
    ensures timestamp.Number? ==> (valid <==> now - timestamp.x < CacheTtl)
    ensures timestamp.Text? && parseIso(timestamp.s).None? ==> !valid
    ensures timestamp.Null? || timestamp.Collection? ==> !valid
  {
    var seconds :=
      match timestamp
      case Text(s) => parseIso(s)
      case Instant(t) => Some(t)
      case Number(x) => Some(x)
      case Flag(b) => Some(if b then 1.0 else 0.0)
      case _ => None;
    seconds.Some? && now - seconds.value < CacheTtl
  }

  /** An entry fresh now was fresh at every earlier moment after it was written. */
  lemma CacheValidMonotone(timestamp: Value, earlier: real, later: real, parseIso: string -> Option<real>)
    requires earlier <= later
    ensures CacheValid(timestamp, later, parseIso) ==> CacheValid(timestamp, earlier, parseIso)
  {
  }

  /** A numeric entry is fresh for exactly 300 seconds after its timestamp. */
  lemma CacheExpiresAfterTtl(t: real, parseIso: string -> Option<real>)
    ensures CacheValid(Number(t), t + 299.0, parseIso)
    ensures !CacheValid(Number(t), t + CacheTtl, parseIso)
  {
  }

  // ---------------------------------------------------------------------------
  // Confidence notices

  datatype Notice = LowConfidenceWarning | MediumConfidenceNotice | NoNotice

  function NoticeText(n: Notice): string {
    match n
    case LowConfidenceWarning => "Low confidence recommendation - consider manual fitting"
    case MediumConfidenceNotice => "Medium confidence recommendation - alterations may be needed"
    case NoNotice => ""
  }

  /** The notice attached to a response for the engine's confidence. */
  function ConfidenceNotice(confidence: real): (n: Notice)
    ensures n == LowConfidenceWarning <==> confidence < 0.6
    ensures n == MediumConfidenceNotice <==> 0.6 <= confidence < 0.75
    ensures n == NoNotice <==> confidence >= 0.75
  {
    if confidence < 0.6 then LowConfidenceWarning
    else if confidence < 0.75 then MediumConfidenceNotice
    else NoNotice
  }

  function Severity(n: Notice): nat {
    match n
    case LowConfidenceWarning => 2
    case MediumConfidenceNotice => 1
    case NoNotice => 0
  }

  /** Higher confidence never draws a more severe notice. */
  lemma NoticeMonotone(c1: real, c2: real)
    requires c1 <= c2
    ensures Severity(ConfidenceNotice(c2)) <= Severity(ConfidenceNotice(c1))
  {
  }
}
