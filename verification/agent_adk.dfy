/**
  `IncidentDetectionAgent`: one direct `generate_content` call per attempt, in JSON
  mode. The model is an oracle giving, for a prompt and an attempt number, either
  the response text or the error the call raised.
*/
module AgentAdk {
  import opened Outcomes
  import opened JsonValue
  import opened Models
  import opened InputPrep
  import opened AgentCommon
  import opened GlobalFold

  /** What one `generate_content` call (and reading `response.text`) gives. */
  datatype Generation = Generated(text: string) | GenerationError(message: string)

  /** The model's behaviour: the outcome of the call for a prompt at a given attempt. */
  type Model = (Prompt, nat) -> Generation

  /** An attempt that failed with a throttling error, which is retried. */
  predicate Throttled(g: Generation) {
    g.GenerationError? && IsRateLimited(g.message)
  }

  /** How the call phase ends, from attempt `attempt` on. */
  function CallWithRetry(p: Prompt, model: Model, attempt: nat): (r: CallResult)
    requires attempt < MaxRetries
    ensures r.RateLimitExhausted? ==> Throttled(model(p, MaxRetries - 1))
    ensures r.CallFailed? ==> !IsRateLimited(r.message)
    decreases MaxRetries - attempt
  {
    var g := model(p, attempt);
    if !Throttled(g) then Decided(g)
    else if attempt < MaxRetries - 1 then CallWithRetry(p, model, attempt + 1)
    else RateLimitExhausted
  }

  /** How an attempt that is not throttled ends the call: with its text, or with its error. */
  function Decided(g: Generation): CallResult {
    match g
    case Generated(t) => Answered(t)
    case GenerationError(m) => CallFailed(m)
  }

  /** The report when the response cannot be read. */
  function ParseFailureReport(sourceId: string): (r: SourceReport)
    ensures r.sourceId == sourceId && r.incidents == [] && r.status == AttentionRequired
    ensures r.recommendations == ["AI Analysis Failed"]
  {
    SourceReport(sourceId, status := AttentionRequired, recommendations := ["AI Analysis Failed"])
  }

  /** The report `analyze_source` returns. */
  function Analysis(sourceId: string, files: seq<FileData>, cv: SourceCV, ctx: Context,
                    model: Model, decode: string -> Option<Json>): (r: SourceReport)
    ensures r.sourceId == sourceId
  {
    match CallWithRetry(MakePrompt(sourceId, files, cv, ctx), model, 0)
    case RateLimitExhausted => RateLimitReport(sourceId)
    case CallFailed(m) => ErrorReport(sourceId, m)
    case Answered(t) => Interpret(sourceId, decode(t)).GetOr(ParseFailureReport(sourceId))
  }

  /** Which attempts of the call for `p` are throttled. */
  function ThrottledAttempts(p: Prompt, model: Model): nat -> bool {
    (k: nat) => Throttled(model(p, k))
  }

  /**
    The retry loop of `analyze_source`: how the call phase ends, and the sleeps
    between attempts, in order.
  */
  method CallModel(prompt: Prompt, model: Model) returns (call: CallResult, waits: seq<nat>)
    ensures call == CallWithRetry(prompt, model, 0)
    ensures waits == Waits(ThrottledAttempts(prompt, model), 0)
  {
    ghost var throttled := ThrottledAttempts(prompt, model);
    waits := [];
    var attempt := 0;
    // Every attempt either ends the call or sleeps and retries; the fifth cannot
    // retry, so the loop is only ever left by `return`.
    while true
      invariant attempt < MaxRetries
      invariant waits + Waits(throttled, attempt) == Waits(throttled, 0)
      invariant CallWithRetry(prompt, model, attempt) == CallWithRetry(prompt, model, 0)
      decreases MaxRetries - attempt
    {
      match model(prompt, attempt)
      case Generated(t) =>
        assert waits + [] == waits;
        return Answered(t), waits;
      case GenerationError(m) =>
        if !IsRateLimited(m) {
          assert waits + [] == waits;
          return CallFailed(m), waits;
        } else if attempt == MaxRetries - 1 {
          assert waits + [] == waits;
          return RateLimitExhausted, waits;
        }
        assert waits + Waits(throttled, attempt) == (waits + [Delay(attempt)]) + Waits(throttled, attempt + 1);
        waits := waits + [Delay(attempt)];
      attempt := attempt + 1;
    }
  }

  /** `analyze_source`: the call with retries, then the fallback report or the reading of the response. */
  method AnalyzeSource(sourceId: string, files: seq<FileData>, cv: SourceCV, ctx: Context,
                       model: Model, decode: string -> Option<Json>)
    returns (report: SourceReport, waits: seq<nat>)
    ensures report == Analysis(sourceId, files, cv, ctx, model, decode)
    ensures waits == Waits(ThrottledAttempts(MakePrompt(sourceId, files, cv, ctx), model), 0)
  {
    var prompt := MakePrompt(sourceId, files, cv, ctx);
    var call;
    call, waits := CallModel(prompt, model);
    match call
    case RateLimitExhausted =>
      report := RateLimitReport(sourceId);
    case CallFailed(m) =>
      report := ErrorReport(sourceId, m);
    case Answered(responseText) =>
      var parsed := ParseResponse(sourceId, decode(responseText));
      if parsed.Some? {
        report := parsed.value;
      } else {
        report := ParseFailureReport(sourceId);
      }
  }

  /** Throttled attempts are skipped: the call ends as the first attempt that is not throttled decides. */
  lemma {:induction false} ThrottledSkipped(p: Prompt, model: Model, a: nat, k: nat)
    requires a <= k < MaxRetries
    requires forall j :: a <= j < k ==> Throttled(model(p, j))
    ensures CallWithRetry(p, model, a) == CallWithRetry(p, model, k)
    decreases k - a
  {
    if a < k {
      assert Throttled(model(p, a));
      ThrottledSkipped(p, model, a + 1, k);
    }
  }

  /**
    When attempts 0 .. k-1 were throttled and attempt k was not, its outcome decides:
    a response is the answer and any other error ends the call with that error.
  */
  lemma FirstUnthrottledDecides(p: Prompt, model: Model, k: nat)
    requires k < MaxRetries
    requires forall j :: 0 <= j < k ==> Throttled(model(p, j))
    requires !Throttled(model(p, k))
    ensures model(p, k).Generated? ==> CallWithRetry(p, model, 0) == Answered(model(p, k).text)
    ensures model(p, k).GenerationError? ==> CallWithRetry(p, model, 0) == CallFailed(model(p, k).message)
  {
    ThrottledSkipped(p, model, 0, k);
  }

  /** The call gives up on throttling exactly when all attempts from `attempt` on were throttled. */
  lemma RateLimitExhaustedIffAllThrottled(p: Prompt, model: Model, attempt: nat)
    requires attempt < MaxRetries
    ensures CallWithRetry(p, model, attempt) == RateLimitExhausted <==>
      forall j :: attempt <= j < MaxRetries ==> Throttled(model(p, j))
  {
    var k := attempt;
    while k < MaxRetries && Throttled(model(p, k))
      invariant attempt <= k <= MaxRetries
      invariant forall j :: attempt <= j < k ==> Throttled(model(p, j))
      decreases MaxRetries - k
    {
      k := k + 1;
    }
    if k < MaxRetries {
      ThrottledSkipped(p, model, attempt, k);
      assert CallWithRetry(p, model, k) == Decided(model(p, k));
    } else {
      ThrottledSkipped(p, model, attempt, MaxRetries - 1);
    }
  }

  /**
    Every report is about the analysed source and so is each of its incidents; a
    report with incidents comes from an answer the model gave.
  */
  lemma AnalysisIsAboutSource(sourceId: string, files: seq<FileData>, cv: SourceCV, ctx: Context,
                              model: Model, decode: string -> Option<Json>)
    ensures var r := Analysis(sourceId, files, cv, ctx, model, decode);
      && (forall k :: 0 <= k < |r.incidents| ==> r.incidents[k].sourceId == sourceId)
      && (!CallWithRetry(MakePrompt(sourceId, files, cv, ctx), model, 0).Answered? ==>
            r.incidents == [] && r.status == AttentionRequired)
  {
    var call := CallWithRetry(MakePrompt(sourceId, files, cv, ctx), model, 0);
    if call.Answered? {
      var decoded := decode(call.text);
      if Interpret(sourceId, decoded).Some? {
        InterpretedReport(sourceId, decoded.value.fields);
      }
    }
  }

  /** The report one job of the global report gets. */
  function JobReport(job: Job, lastWeek: Dict<seq<FileData>>, ctx: Context,
                     model: Model, decode: string -> Option<Json>): SourceReport
  {
    Analysis(job.sourceId, job.files, job.cv, SourceContext(ctx, lastWeek, job.sourceId), model, decode)
  }

  /** `JobReport` for one run, as a function of the job. */
  function JobReports(lastWeek: Dict<seq<FileData>>, ctx: Context,
                      model: Model, decode: string -> Option<Json>): Job -> SourceReport
  {
    (job: Job) => JobReport(job, lastWeek, ctx, model, decode)
  }

  /**
    `generate_global_report`: one analysis per source with a summary, in the order of
    today's files, each with that source's copy of the context.
  */
  method GenerateGlobalReport(dateStr: string, filesData: Dict<seq<FileData>>, lastWeek: Dict<seq<FileData>>,
                              cvs: map<string, SourceCV>, ctx: Context,
                              model: Model, decode: string -> Option<Json>)
    returns (report: GlobalReport)
    ensures report.date == dateStr
    ensures report.sourceReports == MapJobs(Selected(filesData, cvs), JobReports(lastWeek, ctx, model, decode))
  {
    ghost var jobReport := JobReports(lastWeek, ctx, model, decode);
    var sourceReports: seq<SourceReport> := [];
    var i := 0;
    while i < |filesData|
      invariant 0 <= i <= |filesData|
      invariant sourceReports == MapJobs(Selected(filesData[..i], cvs), jobReport)
    {
      ReportsStep(filesData, cvs, i, jobReport);
      var (sourceId, files) := filesData[i];
      if sourceId in cvs {
        var sourceContext := SourceContext(ctx, lastWeek, sourceId);
        var r, _ := AnalyzeSource(sourceId, files, cvs[sourceId], sourceContext, model, decode);
        assert r == jobReport(Job(sourceId, files, cvs[sourceId]));
        sourceReports := sourceReports + [r];
      }
      i := i + 1;
    }
    assert filesData[..i] == filesData;
    return GlobalReport(dateStr, sourceReports);
  }
}
