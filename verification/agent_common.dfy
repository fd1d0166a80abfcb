/**
  What both agents do around the model call: the prompt's inputs, the retry
  discipline, the fallback reports, and the reading of the model's JSON answer
  into a `SourceReport`. The two agents repeat this code line for line; it is
  modelled once here.
*/
module AgentCommon {
  import opened Outcomes
  import opened Text
  import opened JsonValue
  import opened Models

  /** The per-source context: the run date (as its YYYY-MM-DD text) and, once set, last week's files. */
  datatype Context = Context(date: string, lastWeekFiles: Option<seq<FileData>>)

  /** The values the prompt is formatted from; its wording is not modelled. */
  datatype Prompt = Prompt(
    currentDate: string,
    sourceId: string,
    cv: SourceCV,
    files: seq<FileData>,
    lastWeekFiles: seq<FileData>)

  /** Last week's files come from the context, and default to none when it has no entry. */
  function MakePrompt(sourceId: string, files: seq<FileData>, cv: SourceCV, ctx: Context): (p: Prompt)
    ensures p.currentDate == ctx.date && p.sourceId == sourceId && p.cv == cv && p.files == files
    ensures ctx.lastWeekFiles.Some? ==> p.lastWeekFiles == ctx.lastWeekFiles.value
    ensures ctx.lastWeekFiles.None? ==> p.lastWeekFiles == []
  {
    Prompt(ctx.date, sourceId, cv, files, ctx.lastWeekFiles.GetOr([]))
  }

  // ---- retry discipline ----

  const MaxRetries: nat := 5
  const BaseDelay: nat := 10

  function Pow2(n: nat): (r: nat)
    ensures r >= 1
  {
    if n == 0 then 1 else 2 * Pow2(n - 1)
  }

  /** Seconds slept after failed attempt number `attempt` (counted from 0). */
  function Delay(attempt: nat): nat {
    BaseDelay * Pow2(attempt)
  }

  /** The sleeps after attempts 0 .. n-1, in order. */
  function Delays(n: nat): (s: seq<nat>)
    ensures |s| == n
  {
    if n == 0 then [] else Delays(n - 1) + [Delay(n - 1)]
  }

  /** The first `n` delays, element by element. */
  lemma {:induction false} DelaysAt(n: nat)
    ensures forall k :: 0 <= k < n ==> Delays(n)[k] == Delay(k)
  {
    if n > 0 {
      DelaysAt(n - 1);
      assert forall k :: 0 <= k < n - 1 ==> Delays(n)[k] == Delays(n - 1)[k];
    }
  }

  function Sum(s: seq<nat>): nat {
    if s == [] then 0 else Sum(s[..|s| - 1]) + s[|s| - 1]
  }

  /** The delays double from 10 s, so n of them add up to 10 * (2^n - 1) s. */
  lemma {:induction false} DelaysSum(n: nat)
    ensures Sum(Delays(n)) == BaseDelay * (Pow2(n) - 1)
  {
    if n > 0 {
      DelaysSum(n - 1);
      assert Delays(n)[..n - 1] == Delays(n - 1);
    }
  }

  /** At most four sleeps happen (none after the fifth attempt), so a source waits at most 150 s. */
  lemma TotalWaitAtMost150(waits: seq<nat>)
    requires |waits| < MaxRetries && waits == Delays(|waits|)
    ensures Sum(waits) <= 150
  {
    DelaysSum(|waits|);
    Pow2Monotone(|waits|, MaxRetries - 1);
    assert Pow2(4) == 16;
  }

  lemma {:induction false} Pow2Monotone(n: nat, m: nat)
    requires n <= m
    ensures Pow2(n) <= Pow2(m)
    decreases m
  {
    if n < m {
      Pow2Monotone(n, m - 1);
    }
  }

  /**
    The sleeps of a call phase from attempt `attempt` on, given which attempts were
    throttled: one after each throttled attempt but the fifth, until one is not.
  */
  function Waits(throttled: nat -> bool, attempt: nat): seq<nat>
    requires attempt < MaxRetries
    decreases MaxRetries - attempt
  {
    if throttled(attempt) && attempt < MaxRetries - 1 then [Delay(attempt)] + Waits(throttled, attempt + 1)
    else []
  }

  /**
    The sleeps from attempt `attempt` on are the doubling delays of the attempts that
    were throttled, in order: each slept-after attempt was throttled, and the attempt
    after the last sleep was not, unless it is the fifth.
  */
  lemma {:induction false} WaitsFollowThrottling(throttled: nat -> bool, attempt: nat)
    requires attempt < MaxRetries
    ensures var w := Waits(throttled, attempt);
      && attempt + |w| < MaxRetries
      && (forall k :: 0 <= k < |w| ==> w[k] == Delay(attempt + k))
      && (forall k :: attempt <= k < attempt + |w| ==> throttled(k))
      && (!throttled(attempt + |w|) || attempt + |w| == MaxRetries - 1)
    decreases MaxRetries - attempt
  {
    if throttled(attempt) && attempt < MaxRetries - 1 {
      WaitsFollowThrottling(throttled, attempt + 1);
    }
  }

  /**
    The sleeps of a whole call: the first of the doubling delays, fewer than five, one
    per leading throttled attempt, stopping at the first attempt that is not throttled
    or at the fifth.
  */
  lemma WaitsOfCall(throttled: nat -> bool)
    ensures var w := Waits(throttled, 0);
      && |w| < MaxRetries && w == Delays(|w|)
      && (forall k :: 0 <= k < |w| ==> throttled(k))
      && (!throttled(|w|) || |w| == MaxRetries - 1)
  {
    var w := Waits(throttled, 0);
    WaitsFollowThrottling(throttled, 0);
    DelaysAt(|w|);
  }

  /** An error is treated as throttling exactly when its text mentions "429" or "Resource exhausted". */
  predicate IsRateLimited(message: string)
    decreases |message|
  {
    |message| > 0 && (StartsWithMarker(message) || IsRateLimited(message[1..]))
  }

  /** Whether `message` begins with one of the two throttling markers. */
  predicate StartsWithMarker(message: string) {
    "429" <= message || "Resource exhausted" <= message
  }

  /** The scan is Python's `"429" in message or "Resource exhausted" in message`. */
  lemma RateLimitedIffMarked(message: string)
    ensures IsRateLimited(message) <==> Contains(message, "429") || Contains(message, "Resource exhausted")
  {
    RateLimitedIffOccurs(message);
    ContainsIffOccurs(message, "429");
    ContainsIffOccurs(message, "Resource exhausted");
    if IsRateLimited(message) {
      var i: nat :| MarkerAt(message, i);
      assert OccursAt(message, i, "429") || OccursAt(message, i, "Resource exhausted");
    } else if Contains(message, "429") {
      var i: nat :| OccursAt(message, i, "429");
      assert MarkerAt(message, i);
    } else if Contains(message, "Resource exhausted") {
      var i: nat :| OccursAt(message, i, "Resource exhausted");
      assert MarkerAt(message, i);
    }
  }

  predicate MarkerAt(message: string, i: nat) {
    OccursAt(message, i, "429") || OccursAt(message, i, "Resource exhausted")
  }

  lemma {:induction false} RateLimitedIffOccurs(message: string)
    ensures IsRateLimited(message) <==> exists i: nat :: MarkerAt(message, i)
    decreases |message|
  {
    if |message| > 0 {
      var tail := message[1..];
      RateLimitedIffOccurs(tail);
      forall i: nat
        ensures MarkerAt(tail, i) <==> MarkerAt(message, i + 1)
      {
        OccursInTail(message, i, "429");
        OccursInTail(message, i, "Resource exhausted");
      }
      OccursAtStart(message, "429");
      OccursAtStart(message, "Resource exhausted");
      if exists i: nat :: MarkerAt(message, i) {
        var i: nat :| MarkerAt(message, i);
        if i > 0 {
          assert MarkerAt(tail, i - 1);
        }
      }
      if IsRateLimited(tail) {
        var i: nat :| MarkerAt(tail, i);
        assert MarkerAt(message, i + 1);
      }
    }
  }

  /** A message with neither a digit 4 nor a capital R cannot start either marker, so it is not throttling. */
  lemma {:induction false} NotRateLimitedWithoutMarkerHeads(message: string)
    requires forall k :: 0 <= k < |message| ==> message[k] != '4' && message[k] != 'R'
    ensures !IsRateLimited(message)
    decreases |message|
  {
    if |message| > 0 {
      NotRateLimitedWithoutMarkerHeads(message[1..]);
      assert message[0] != "429"[0] && message[0] != "Resource exhausted"[0];
    }
  }

  /** How the call phase of `analyze_source` ended. */
  datatype CallResult =
    | Answered(text: string)
    | RateLimitExhausted
    | CallFailed(message: string)

  /** The report when the fifth attempt was throttled too. */
  function RateLimitReport(sourceId: string): (r: SourceReport)
    ensures r.sourceId == sourceId && r.incidents == [] && r.status == AttentionRequired
    ensures r.recommendations == ["AI Analysis Failed (Rate Limit)"]
  {
    SourceReport(sourceId, status := AttentionRequired, recommendations := ["AI Analysis Failed (Rate Limit)"])
  }

  /** The report when an attempt failed with an error that is not throttling. */
  function ErrorReport(sourceId: string, message: string): (r: SourceReport)
    ensures r.sourceId == sourceId && r.incidents == [] && r.status == AttentionRequired
    ensures r.recommendations == ["AI Analysis Failed: " + message]
  {
    SourceReport(sourceId, status := AttentionRequired, recommendations := ["AI Analysis Failed: " + message])
  }

  // ---- reading the answer ----

  /** `IncidentType(v)` with the fallback to `FailedFile` for anything that is not a known display string. */
  function TypeOrFallback(v: Option<Json>): (t: IncidentType)
    ensures v.Some? && v.value.JString? && TypeFromValue(v.value.s).Some? ==> TypeValue(t) == v.value.s
    ensures !(v.Some? && v.value.JString? && TypeFromValue(v.value.s).Some?) ==> t == FailedFile
  {
    match v
    case Some(JString(s)) => TypeFromValue(s).GetOr(FailedFile)
    case _ => FailedFile
  }

  /** `IncidentSeverity(v)` with the fallback to `AttentionRequired` for anything that is not a known value. */
  function SeverityOrFallback(v: Option<Json>): (s: Severity)
    ensures v.Some? && v.value.JString? && SeverityFromValue(v.value.s).Some? ==> SeverityValue(s) == v.value.s
    ensures !(v.Some? && v.value.JString? && SeverityFromValue(v.value.s).Some?) ==> s == AttentionRequired
  {
    match v
    case Some(JString(s)) => SeverityFromValue(s).GetOr(AttentionRequired)
    case _ => AttentionRequired
  }

  /** The `file_name` field as an optional string, or `None` (outer) when it fails validation. */
  function FileNameOf(v: Option<Json>): Option<Option<string>> {
    match v
    case None => Some(None)
    case Some(JNull) => Some(None)
    case Some(JString(n)) => Some(Some(n))
    case _ => None
  }

  /**
    One element of the `incidents` list as an `Incident` tagged with the analysed
    source, or `None` where building it raises: the element is not an object, its
    description is not a string, or its file name is neither a string nor null.
  */
  function IncidentOf(sourceId: string, item: Json): (r: Option<Incident>)
    ensures r.Some? ==> r.value.sourceId == sourceId
    ensures r.Some? <==>
      item.JObject? && Get(item.fields, "description").Some? && Get(item.fields, "description").value.JString?
      && FileNameOf(Get(item.fields, "file_name")).Some?
    ensures r.Some? ==>
      && r.value.incidentType == TypeOrFallback(Get(item.fields, "incident_type"))
      && r.value.severity == SeverityOrFallback(Get(item.fields, "severity"))
      && r.value.description == Get(item.fields, "description").value.s
      && r.value.fileName == FileNameOf(Get(item.fields, "file_name")).value
  {
    match item
    case JObject(f) =>
      (match (Get(f, "description"), FileNameOf(Get(f, "file_name")))
       case (Some(JString(d)), Some(name)) =>
         Some(Incident(TypeOrFallback(Get(f, "incident_type")), SeverityOrFallback(Get(f, "severity")), d, name, sourceId))
       case _ => None)
    case _ => None
  }

  /**
    What `for inc_data in result.get("incidents", [])` walks over. An absent key walks
    an empty list; an empty string or object walks nothing; a non-empty string or
    object yields elements with no `.get`, and any other value is not iterable, so
    both of those raise (`None`).
  */
  function IncidentItems(v: Option<Json>): Option<seq<Json>> {
    match v
    case None => Some([])
    case Some(JArray(xs)) => Some(xs)
    case Some(JString(s)) => if s == [] then Some([]) else None
    case Some(JObject(m)) => if m == map[] then Some([]) else None
    case _ => None
  }

  /** The incident list built from `items`, or `None` as soon as one element fails. */
  function MapIncidents(sourceId: string, items: seq<Json>): (r: Option<seq<Incident>>)
    ensures r.Some? <==> forall k :: 0 <= k < |items| ==> IncidentOf(sourceId, items[k]).Some?
    ensures r.Some? ==> |r.value| == |items|
    ensures r.Some? ==> forall k :: 0 <= k < |items| ==> r.value[k] == IncidentOf(sourceId, items[k]).value
    decreases |items|
  {
    if items == [] then Some([])
    else
      var prefix := items[..|items| - 1];
      assert forall k :: 0 <= k < |prefix| ==> prefix[k] == items[k];
      var init := MapIncidents(sourceId, prefix);
      var last := IncidentOf(sourceId, items[|items| - 1]);
      if init.Some? && last.Some? then Some(init.value + [last.value]) else None
  }

  /** The incident loop: one `Incident` appended per element, in order. */
  method CollectIncidents(sourceId: string, items: seq<Json>) returns (r: Option<seq<Incident>>)
    ensures r == MapIncidents(sourceId, items)
  {
    var incidents: seq<Incident> := [];
    var i := 0;
    while i < |items|
      invariant 0 <= i <= |items|
      invariant MapIncidents(sourceId, items[..i]) == Some(incidents)
    {
      assert items[..i + 1][..i] == items[..i];
      var incident := IncidentOf(sourceId, items[i]);
      if incident.None? {
        assert items[..i + 1][i] == items[i];
        MapIncidentsFailsOnExtension(sourceId, items, i + 1);
        return None;
      }
      incidents := incidents + [incident.value];
      i := i + 1;
    }
    assert items[..i] == items;
    return Some(incidents);
  }

  /** Once a prefix fails, every longer prefix fails too. */
  lemma {:induction false} MapIncidentsFailsOnExtension(sourceId: string, items: seq<Json>, n: nat)
    requires n <= |items|
    requires MapIncidents(sourceId, items[..n]).None?
    ensures MapIncidents(sourceId, items).None?
  {
    var k :| 0 <= k < n && IncidentOf(sourceId, items[..n][k]).None?;
    assert items[..n][k] == items[k];
  }

  /** `IncidentSeverity(result.get("status", "ALL_GOOD"))`; `None` where it raises. */
  function StatusOf(v: Option<Json>): Option<Severity> {
    match v
    case None => Some(AllGood)
    case Some(JString(s)) => SeverityFromValue(s)
    case _ => None
  }

  /** A JSON list read as a list of strings: its strings in order, or `None` when some element is not a string. */
  function Strings(xs: seq<Json>): (r: Option<seq<string>>)
    ensures r.Some? <==> forall k :: 0 <= k < |xs| ==> xs[k].JString?
    ensures r.Some? ==> |r.value| == |xs| && forall k :: 0 <= k < |xs| ==> xs[k] == JString(r.value[k])
    decreases |xs|
  {
    if xs == [] then Some([])
    else
      match (xs[0], Strings(xs[1..]))
      case (JString(s), Some(rest)) => Some([s] + rest)
      case _ => None
  }

  /** `result.get("recommendations", [])` as a list of strings; `None` where validation fails. */
  function RecommendationsOf(v: Option<Json>): Option<seq<string>> {
    match v
    case None => Some([])
    case Some(JArray(xs)) => Strings(xs)
    case _ => None
  }

  /**
    The report the answer describes, or `None` where reading it raises: the text is
    not JSON, the document is not an object, the incident list or one of its
    elements is unusable, the status is not a known value, or the recommendations
    are not a list of strings.
  */
  function Interpret(sourceId: string, decoded: Option<Json>): (r: Option<SourceReport>)
    ensures r.Some? ==> decoded.Some? && decoded.value.JObject?
    ensures r.Some? ==> r.value.sourceId == sourceId
    ensures r.Some? ==> forall k :: 0 <= k < |r.value.incidents| ==> r.value.incidents[k].sourceId == sourceId
  {
    match decoded
    case Some(JObject(f)) =>
      var items := IncidentItems(Get(f, "incidents"));
      var incidents := if items.Some? then MapIncidents(sourceId, items.value) else None;
      var status := StatusOf(Get(f, "status"));
      var recommendations := RecommendationsOf(Get(f, "recommendations"));
      if incidents.Some? && status.Some? && recommendations.Some? then
        assert forall k :: 0 <= k < |items.value| ==> IncidentOf(sourceId, items.value[k]).Some?;
        Some(SourceReport(sourceId, incidents.value, status.value, recommendations.value))
      else None
    case _ => None
  }

  /** The reading of the answer with the incident loop, as `analyze_source` runs it. */
  method ParseResponse(sourceId: string, decoded: Option<Json>) returns (r: Option<SourceReport>)
    ensures r == Interpret(sourceId, decoded)
  {
    if !(decoded.Some? && decoded.value.JObject?) {
      return None;
    }
    var f := decoded.value.fields;
    var items := IncidentItems(Get(f, "incidents"));
    if items.None? {
      return None;
    }
    var incidents := CollectIncidents(sourceId, items.value);
    if incidents.None? {
      return None;
    }
    var status := StatusOf(Get(f, "status"));
    var recommendations := RecommendationsOf(Get(f, "recommendations"));
    if status.None? || recommendations.None? {
      return None;
    }
    return Some(SourceReport(sourceId, incidents.value, status.value, recommendations.value));
  }

  /**
    A readable answer yields one incident per element of its list, in order, each
    tagged with the analysed source; the status is the answer's own `status` (ALL_GOOD
    when absent) and the recommendations its own list (empty when absent).
  */
  lemma {:induction false} InterpretedReport(sourceId: string, f: map<string, Json>)
    requires Interpret(sourceId, Some(JObject(f))).Some?
    ensures var r := Interpret(sourceId, Some(JObject(f))).value;
      && IncidentItems(Get(f, "incidents")).Some?
      && var items := IncidentItems(Get(f, "incidents")).value;
      && r.sourceId == sourceId
      && |r.incidents| == |items|
      && (forall k :: 0 <= k < |items| ==> r.incidents[k] == IncidentOf(sourceId, items[k]).value)
      && (forall k :: 0 <= k < |r.incidents| ==> r.incidents[k].sourceId == sourceId)
      && ("status" !in f ==> r.status == AllGood)
      && ("status" in f ==> f["status"].JString? && SeverityValue(r.status) == f["status"].s)
      && ("recommendations" !in f ==> r.recommendations == [])
      && ("recommendations" in f ==>
            && f["recommendations"].JArray?
            && |r.recommendations| == |f["recommendations"].items|
            && forall k :: 0 <= k < |r.recommendations| ==> f["recommendations"].items[k] == JString(r.recommendations[k]))
  {
    var items := IncidentItems(Get(f, "incidents")).value;
    var r := Interpret(sourceId, Some(JObject(f))).value;
    assert r.incidents == MapIncidents(sourceId, items).value;
    forall k | 0 <= k < |r.incidents| ensures r.incidents[k].sourceId == sourceId {
      assert IncidentOf(sourceId, items[k]).Some?;
    }
  }

  /** The status is copied from the answer, not derived: an urgent incident under an ALL_GOOD status stays ALL_GOOD. */
  lemma StatusIsNotDerived(sourceId: string)
    ensures
      var incident := JObject(map["severity" := JString("URGENT"), "description" := JString("outage")]);
      var answer := JObject(map["incidents" := JArray([incident]), "status" := JString("ALL_GOOD")]);
      var r := Interpret(sourceId, Some(answer));
      && r.Some? && r.value.status == AllGood
      && |r.value.incidents| == 1 && r.value.incidents[0].severity == Urgent
  {
    var incident := JObject(map["severity" := JString("URGENT"), "description" := JString("outage")]);
    var answer := JObject(map["incidents" := JArray([incident]), "status" := JString("ALL_GOOD")]);
    assert IncidentOf(sourceId, incident).Some?;
    assert MapIncidents(sourceId, [incident]).Some?;
  }

  /** A status outside the three values, or an incident without a description, makes the whole answer unreadable. */
  lemma {:induction false} UnreadableAnswers(sourceId: string, f: map<string, Json>, k: nat)
    ensures "status" in f && f["status"].JString? && SeverityFromValue(f["status"].s).None? ==>
      Interpret(sourceId, Some(JObject(f))).None?
    ensures ("incidents" in f && f["incidents"].JArray? && k < |f["incidents"].items|
             && f["incidents"].items[k].JObject? && "description" !in f["incidents"].items[k].fields) ==>
      Interpret(sourceId, Some(JObject(f))).None?
  {
    if "incidents" in f && f["incidents"].JArray? && k < |f["incidents"].items|
      && f["incidents"].items[k].JObject? && "description" !in f["incidents"].items[k].fields
    {
      assert IncidentOf(sourceId, f["incidents"].items[k]).None?;
    }
  }
}
