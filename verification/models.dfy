/** The record and enumeration types shared by the whole pipeline. */
module Models {
  import opened Outcomes

  /** Severity of one incident, and the overall status of a source. */
  datatype Severity = Urgent | AttentionRequired | AllGood

  /** The string value of each severity member; it is the member's own name. */
  function SeverityValue(s: Severity): string {
    match s
    case Urgent => "URGENT"
    case AttentionRequired => "ATTENTION_REQUIRED"
    case AllGood => "ALL_GOOD"
  }

  /** `IncidentSeverity(v)`: lookup by value; `None` where Python raises `ValueError`. */
  function SeverityFromValue(v: string): (r: Option<Severity>)
    ensures r.Some? ==> SeverityValue(r.value) == v
    ensures r.None? ==> forall s :: SeverityValue(s) != v
  {
    if v == "URGENT" then Some(Urgent)
    else if v == "ATTENTION_REQUIRED" then Some(AttentionRequired)
    else if v == "ALL_GOOD" then Some(AllGood)
    else None
  }

  /** The seven kinds of incident. */
  datatype IncidentType =
    | MissingFile
    | DuplicatedFile
    | UnexpectedEmpty
    | VolumeVariation
    | LateUpload
    | PreviousFile
    | FailedFile

  /** The display string each incident type carries as its enumeration value. */
  function TypeValue(t: IncidentType): string {
    match t
    case MissingFile => "Missing File"
    case DuplicatedFile => "Duplicated File"
    case UnexpectedEmpty => "Unexpected Empty File"
    case VolumeVariation => "Unexpected Volume Variation"
    case LateUpload => "File Upload After Schedule"
    case PreviousFile => "Upload of Previous File"
    case FailedFile => "Failed File"
  }

  /** `IncidentType(v)`: lookup by display string; `None` where Python raises `ValueError`. */
  function TypeFromValue(v: string): (r: Option<IncidentType>)
    ensures r.Some? ==> TypeValue(r.value) == v
    ensures r.None? ==> forall t :: TypeValue(t) != v
  {
    if v == "Missing File" then Some(MissingFile)
    else if v == "Duplicated File" then Some(DuplicatedFile)
    else if v == "Unexpected Empty File" then Some(UnexpectedEmpty)
    else if v == "Unexpected Volume Variation" then Some(VolumeVariation)
    else if v == "File Upload After Schedule" then Some(LateUpload)
    else if v == "Upload of Previous File" then Some(PreviousFile)
    else if v == "Failed File" then Some(FailedFile)
    else None
  }

  /** Both lookups invert the value functions, so distinct members have distinct values. */
  lemma {:induction false} LookupsInvertValues(s: Severity, t: IncidentType)
    ensures SeverityFromValue(SeverityValue(s)) == Some(s)
    ensures TypeFromValue(TypeValue(t)) == Some(t)
    ensures forall s' :: SeverityValue(s') == SeverityValue(s) ==> s' == s
    ensures forall t' :: TypeValue(t') == TypeValue(t) ==> t' == t
  {
    match s
    case Urgent =>
    case AttentionRequired =>
    case AllGood =>
  }

  /** A timezone-aware instant, kept as the ISO-8601 text it was read from. */
  type Timestamp = string

  /** One uploaded file as listed in `files.json`; `status` is free text, not an enumeration. */
  datatype FileData = FileData(
    filename: string,
    rows: int,
    status: string,
    isDuplicated: bool,
    fileSize: Option<real> := None,
    uploadedAt: Timestamp,
    statusMessage: Option<string> := None)

  /** A source's behaviour summary: workspace, file name pattern, weekday schedule and row statistics. */
  datatype SourceCV = SourceCV(
    resourceId: string,
    workspaceId: string,
    filenamePattern: string,
    uploadSchedule: map<string, string>,
    volumeStats: map<string, map<string, real>>)

  /** One incident; `fileName` is absent for incidents about the source as a whole. */
  datatype Incident = Incident(
    incidentType: IncidentType,
    severity: Severity,
    description: string,
    fileName: Option<string> := None,
    sourceId: string)

  /** The outcome for one source. */
  datatype SourceReport = SourceReport(
    sourceId: string,
    incidents: seq<Incident> := [],
    status: Severity := AllGood,
    recommendations: seq<string> := [])

  /** All source reports of one run date, in processing order. */
  datatype GlobalReport = GlobalReport(date: string, sourceReports: seq<SourceReport>)

  /** The defaults: a report built from a source id alone, and an incident built without a file name. */
  lemma DefaultsAreEmpty(sourceId: string, t: IncidentType, s: Severity, d: string)
    ensures SourceReport(sourceId).incidents == []
    ensures SourceReport(sourceId).status == AllGood
    ensures SourceReport(sourceId).recommendations == []
    ensures Incident(t, s, d, sourceId := sourceId).fileName == None
  {
  }
}
