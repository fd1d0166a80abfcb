/**
  `ADKIncidentAgent`: each attempt runs the ADK agent and appends the text parts of
  the events it yields to `response_text`, which is initialised once, before the
  retry loop. The runner is an oracle giving, for a prompt and an attempt number,
  the events yielded and the error raised (if any) once they were consumed.
*/
module AgentGoogleAdk {
  import opened Outcomes
  import opened Text
  import opened JsonValue
  import opened Models
  import opened InputPrep
  import opened AgentCommon
  import opened GlobalFold

  datatype Part = Part(text: Option<string>)
  datatype Content = Content(parts: seq<Part>)
  datatype Event = Event(content: Option<Content>)

  /** One run of the agent: the events yielded, then the error it raised, if any. */
  datatype AgentRun = AgentRun(events: seq<Event>, raised: Option<string>)

  type Runner = (Prompt, nat) -> AgentRun

  function PartsText(parts: seq<Part>): string {
    if parts == [] then []
    else PartsText(parts[..|parts| - 1]) + parts[|parts| - 1].text.GetOr([])
  }

  /** The text of the events' parts, in order; events without content contribute nothing. */
  function EventsText(events: seq<Event>): string {
    if events == [] then []
    else
      var e := events[|events| - 1];
      EventsText(events[..|events| - 1]) + (if e.content.Some? then PartsText(e.content.value.parts) else [])
  }

  /** The text of two runs of events is the text of the first followed by that of the second. */
  lemma {:induction false} EventsTextAppend(a: seq<Event>, b: seq<Event>)
    ensures EventsText(a + b) == EventsText(a) + EventsText(b)
    decreases |b|
  {
    if b == [] {
      assert a + b == a;
    } else {
      var b' := b[..|b| - 1];
      assert (a + b)[..|a + b| - 1] == a + b';
      assert (a + b)[|a + b| - 1] == b[|b| - 1];
      EventsTextAppend(a, b');
      var e := b[|b| - 1];
      var tail := if e.content.Some? then PartsText(e.content.value.parts) else [];
      calc {
        EventsText(a + b);
        EventsText(a + b') + tail;
        EventsText(a) + EventsText(b') + tail;
        EventsText(a) + EventsText(b);
      }
    }
  }

  /** The event loop: every text part appended to `responseText`, in order. */
  method AppendEventsText(responseText: string, events: seq<Event>) returns (text: string)
    ensures text == responseText + EventsText(events)
  {
    text := responseText;
    for i := 0 to |events|
      invariant text == responseText + EventsText(events[..i])
    {
      assert events[..i + 1][..i] == events[..i];
      var event := events[i];
      if event.content.Some? {
        var parts := event.content.value.parts;
        ghost var before := text;
        for j := 0 to |parts|
          invariant text == before + PartsText(parts[..j])
        {
          assert parts[..j + 1][..j] == parts[..j];
          if parts[j].text.Some? {
            text := text + parts[j].text.value;
          }
        }
        assert parts[..|parts|] == parts;
      }
    }
    assert events[..|events|] == events;
  }

  const NoResponseMessage: string := "No response text received from ADK Agent"

  /** The error raised for an empty response is not a throttling error, so it is never retried. */
  lemma NoResponseIsNotRateLimited()
    ensures !IsRateLimited(NoResponseMessage)
  {
    NoResponseLacks('4');
    NoResponseLacks('R');
    NotRateLimitedWithoutMarkerHeads(NoResponseMessage);
  }

  /** The no-response message has neither a digit 4 nor a capital R. */
  lemma NoResponseLacks(c: char)
    requires c == '4' || c == 'R'
    ensures forall k :: 0 <= k < |NoResponseMessage| ==> NoResponseMessage[k] != c
  {
  }

  /** An attempt whose run raised a throttling error, which is retried. */
  predicate RunThrottled(run: AgentRun) {
    run.raised.Some? && IsRateLimited(run.raised.value)
  }

  /** Which attempts of the call for `p` are throttled. */
  function ThrottledRuns(p: Prompt, runner: Runner): nat -> bool {
    (k: nat) => RunThrottled(runner(p, k))
  }

  /**
    How the call phase ends, from attempt `attempt` on, with `acc` already accumulated.
    An attempt that ends cleanly with nothing accumulated raises the no-response error,
    which is not a throttling error (`NoResponseIsNotRateLimited`) and so ends the call.
  */
  function AdkCall(p: Prompt, runner: Runner, attempt: nat, acc: string): (r: CallResult)
    requires attempt < MaxRetries
    ensures r.RateLimitExhausted? ==> RunThrottled(runner(p, MaxRetries - 1))
    ensures r.CallFailed? ==> !IsRateLimited(r.message)
    decreases MaxRetries - attempt
  {
    var run := runner(p, attempt);
    var text := acc + EventsText(run.events);
    if run.raised.None? then
      if text != [] then Answered(text) else (NoResponseIsNotRateLimited(); CallFailed(NoResponseMessage))
    else
      var message := run.raised.value;
      if !IsRateLimited(message) then CallFailed(message)
      else if attempt < MaxRetries - 1 then AdkCall(p, runner, attempt + 1, text)
      else RateLimitExhausted
  }

  /** An answer is never empty and begins with all the text accumulated before the attempt. */
  lemma {:induction false} AnswerExtendsAccumulated(p: Prompt, runner: Runner, attempt: nat, acc: string)
    requires attempt < MaxRetries
    ensures AdkCall(p, runner, attempt, acc).Answered? ==>
      var t := AdkCall(p, runner, attempt, acc).text;
      t != [] && acc <= t
    decreases MaxRetries - attempt
  {
    var run := runner(p, attempt);
    var text := acc + EventsText(run.events);
    assert acc <= text;
    if !(run.raised.None? && text != []) && attempt < MaxRetries - 1 {
      AnswerExtendsAccumulated(p, runner, attempt + 1, text);
    }
  }

  /** The text yielded by attempts `lo` up to but not including `hi`, in order. */
  function RunsText(p: Prompt, runner: Runner, lo: nat, hi: nat): string
    decreases hi - lo
  {
    if lo >= hi then [] else EventsText(runner(p, lo).events) + RunsText(p, runner, lo + 1, hi)
  }

  /** A throttled attempt other than the fifth passes its text on to the next attempt. */
  lemma ThrottledStep(p: Prompt, runner: Runner, attempt: nat, acc: string)
    requires attempt < MaxRetries - 1 && RunThrottled(runner(p, attempt))
    ensures AdkCall(p, runner, attempt, acc) == AdkCall(p, runner, attempt + 1, acc + EventsText(runner(p, attempt).events))
  {
  }

  /**
    Throttled attempts only pass their text on: when attempts `attempt` up to `k` are all
    throttled, the call continues at attempt `k` with their text appended to `acc`.
  */
  lemma {:induction false} ThrottledRunsCarry(p: Prompt, runner: Runner, attempt: nat, k: nat, acc: string)
    requires attempt <= k < MaxRetries
    requires forall j :: attempt <= j < k ==> RunThrottled(runner(p, j))
    ensures AdkCall(p, runner, attempt, acc) == AdkCall(p, runner, k, acc + RunsText(p, runner, attempt, k))
    decreases k - attempt
  {
    RunsTextFirst(p, runner, acc, attempt, k);
    if attempt < k {
      ThrottledStep(p, runner, attempt, acc);
      ThrottledRunsCarry(p, runner, attempt + 1, k, acc + EventsText(runner(p, attempt).events));
    }
  }

  /** The text of attempts `lo` up to `hi` is the first one's text followed by the rest. */
  lemma RunsTextFirst(p: Prompt, runner: Runner, acc: string, lo: nat, hi: nat)
    requires lo <= hi
    ensures lo == hi ==> acc + RunsText(p, runner, lo, hi) == acc
    ensures lo < hi ==>
      acc + EventsText(runner(p, lo).events) + RunsText(p, runner, lo + 1, hi) == acc + RunsText(p, runner, lo, hi)
  {
  }

  /**
    The first attempt that does not raise a throttling error decides the call: its own
    error ends the call with that message; a clean finish answers with all text yielded
    so far, or raises the no-response error when there is none.
  */
  lemma FirstUnthrottledRunDecides(p: Prompt, runner: Runner, k: nat)
    requires k < MaxRetries
    requires forall j :: 0 <= j < k ==> RunThrottled(runner(p, j))
    requires !RunThrottled(runner(p, k))
    ensures runner(p, k).raised.Some? ==> AdkCall(p, runner, 0, []) == CallFailed(runner(p, k).raised.value)
    ensures runner(p, k).raised.None? && RunsText(p, runner, 0, k + 1) != [] ==>
      AdkCall(p, runner, 0, []) == Answered(RunsText(p, runner, 0, k + 1))
    ensures runner(p, k).raised.None? && RunsText(p, runner, 0, k + 1) == [] ==>
      AdkCall(p, runner, 0, []) == CallFailed(NoResponseMessage)
  {
    ThrottledRunsCarry(p, runner, 0, k, []);
    RunsTextExtend(p, runner, 0, k);
  }

  /** One more attempt's text goes at the end. */
  lemma {:induction false} RunsTextExtend(p: Prompt, runner: Runner, lo: nat, hi: nat)
    requires lo <= hi
    ensures RunsText(p, runner, lo, hi + 1) == RunsText(p, runner, lo, hi) + EventsText(runner(p, hi).events)
    decreases hi - lo
  {
    if lo < hi {
      RunsTextExtend(p, runner, lo + 1, hi);
    } else {
      assert RunsText(p, runner, lo + 1, hi + 1) == [];
    }
  }

  /** The call gives up on throttling exactly when every attempt from `attempt` on raised a throttling error. */
  lemma {:induction false} GivesUpIffAllThrottled(p: Prompt, runner: Runner, attempt: nat, acc: string)
    requires attempt < MaxRetries
    ensures AdkCall(p, runner, attempt, acc).RateLimitExhausted? <==>
      forall k :: attempt <= k < MaxRetries ==> RunThrottled(runner(p, k))
    decreases MaxRetries - attempt
  {
    if RunThrottled(runner(p, attempt)) && attempt < MaxRetries - 1 {
      GivesUpIffAllThrottled(p, runner, attempt + 1, acc + EventsText(runner(p, attempt).events));
    }
  }

  /** A first attempt that finishes cleanly with no text ends the call with the no-response error. */
  lemma EmptyFirstRunFails(p: Prompt, runner: Runner)
    requires runner(p, 0).raised.None? && EventsText(runner(p, 0).events) == []
    ensures AdkCall(p, runner, 0, []) == CallFailed(NoResponseMessage)
  {
    NoResponseIsNotRateLimited();
  }

  /**
    Text from a throttled attempt is kept: when attempt 0 yields some text and is then
    throttled, and attempt 1 finishes cleanly, the answer is the text of both attempts
    together, even when attempt 1 yields nothing.
  */
  lemma ThrottledTextCarriesOver(p: Prompt, runner: Runner)
    requires runner(p, 0).raised.Some? && IsRateLimited(runner(p, 0).raised.value)
    requires runner(p, 1).raised.None?
    requires EventsText(runner(p, 0).events) != []
    ensures AdkCall(p, runner, 0, []) ==
      Answered(EventsText(runner(p, 0).events) + EventsText(runner(p, 1).events))
  {
    assert [] + EventsText(runner(p, 0).events) == EventsText(runner(p, 0).events);
  }

  /**
    `s.split(sep)[1]`: the text after the first occurrence of `sep`, up to the next
    occurrence at or after its end (or to the end of `s`).
  */
  function SecondPiece(s: string, sep: string): (r: string)
    requires sep != [] && Contains(s, sep)
    ensures var start := Find(s, sep, 0).value + |sep|;
      && start + |r| <= |s| && s[start..start + |r|] == r
      && (forall j :: start <= j < start + |r| ==> !OccursAt(s, j, sep))
      && (start + |r| == |s| || OccursAt(s, start + |r|, sep))
  {
    var start := Find(s, sep, 0).value + |sep|;
    match Find(s, sep, start)
    case Some(j) => s[start..j]
    case None => s[start..]
  }

  /**
    `s.split(sep)[0]`: the longest prefix of `s` in which no occurrence of `sep` starts,
    which ends where the first occurrence begins (or is all of `s`).
  */
  function FirstPiece(s: string, sep: string): (r: string)
    requires sep != []
    ensures r <= s
    ensures forall j :: 0 <= j < |r| ==> !OccursAt(s, j, sep)
    ensures |r| == |s| || OccursAt(s, |r|, sep)
    ensures !Contains(r, sep)
  {
    match Find(s, sep, 0)
    case Some(j) => NotContainedBeforeFirst(s, sep, j); s[..j]
    case None => NotContainedBeforeFirst(s, sep, |s|); assert s[..|s|] == s; s
  }

  /** The first piece of `t[lo..hi]` ends at the first occurrence of `sep` from `lo` on, when it lies inside. */
  lemma FirstPieceOfSlice(t: string, lo: nat, hi: nat, sep: string, m: nat)
    requires sep != [] && lo <= hi <= |t|
    requires Find(t, sep, lo) == Some(m) && m + |sep| <= hi
    ensures FirstPiece(t[lo..hi], sep) == t[lo..m]
  {
    var u := t[lo..hi];
    var r := FirstPiece(u, sep);
    OccursInSlice(t, lo, hi, m - lo, sep);
    if |r| < m - lo {
      OccursInSlice(t, lo, hi, |r|, sep);
    }
    assert |r| >= m - lo;
    assert u[..m - lo] == t[lo..m];
  }

  /** A slice in which no occurrence of `sep` starts is its own first piece. */
  lemma FirstPieceOfSliceWhole(t: string, lo: nat, hi: nat, sep: string)
    requires sep != [] && lo <= hi <= |t|
    requires forall j :: lo <= j && j + |sep| <= hi ==> !OccursAt(t, j, sep)
    ensures FirstPiece(t[lo..hi], sep) == t[lo..hi]
  {
    var u := t[lo..hi];
    var r := FirstPiece(u, sep);
    if |r| < |u| {
      OccursInSlice(t, lo, hi, |r|, sep);
    }
  }

  /** A `json` fence starts with a plain fence. */
  lemma JsonFenceHasFence(t: string, j: nat)
    ensures OccursAt(t, j, "```json") ==> OccursAt(t, j, "```")
  {
    if OccursAt(t, j, "```json") {
      assert t[j..j + 3] == t[j..j + 7][..3];
    }
  }

  /**
    With a `json` fence at `k`, the text kept is what lies between it and the next
    fence, at `m`, stripped. (A fence run directly into a following `json` fence, as in
    "````json", is left to the code's own splitting, which this does not cover.)
  */
  lemma JsonFenceContent(t: string, k: nat, m: nat)
    requires Find(t, "```json", 0) == Some(k)
    requires Find(t, "```", k + 7) == Some(m)
    requires !OccursAt(t, m + 1, "```json") && !OccursAt(t, m + 2, "```json")
    ensures StripFences(t) == Strip(t[k + 7..m])
  {
    var st := k + 7;
    var hi := if Find(t, "```json", st).Some? then Find(t, "```json", st).value else |t|;
    assert SecondPiece(t, "```json") == t[st..hi];
    assert FirstPiece(t[st..hi], "```") == t[st..m] by {
      assert m == hi || m + 3 <= hi by {
        if hi < |t| {
          CloseBeforeNextJsonFence(t, st, m, hi);
        }
      }
      if m == hi {
        FirstPieceOfSliceWhole(t, st, hi, "```");
      } else {
        FirstPieceOfSlice(t, st, hi, "```", m);
      }
    }
  }

  /**
    The first fence from `st` on ends before a later `json` fence at `hi` begins, or
    is that fence, unless it runs straight into it.
  */
  lemma CloseBeforeNextJsonFence(t: string, st: nat, m: nat, hi: nat)
    requires Find(t, "```", st) == Some(m) && st <= hi && OccursAt(t, hi, "```json")
    requires !OccursAt(t, m + 1, "```json") && !OccursAt(t, m + 2, "```json")
    ensures m == hi || m + 3 <= hi
  {
    JsonFenceHasFence(t, hi);
    assert m <= hi;
    assert hi != m + 1 && hi != m + 2;
  }

  /** With a `json` fence at `k` and no fence after it, the text kept is the rest, stripped. */
  lemma JsonFenceUnclosed(t: string, k: nat)
    requires Find(t, "```json", 0) == Some(k)
    requires Find(t, "```", k + 7) == None
    ensures StripFences(t) == Strip(t[k + 7..])
  {
    var st := k + 7;
    JsonFenceIsFence(t);
    forall j | st <= j
      ensures !OccursAt(t, j, "```json")
    {
      JsonFenceHasFence(t, j);
    }
    assert Find(t, "```json", st).None?;
    assert SecondPiece(t, "```json") == t[st..|t|];
    FirstPieceOfSliceWhole(t, st, |t|, "```");
  }

  /** Without a `json` fence, the text kept is what lies between the first two fences, stripped. */
  lemma PlainFenceContent(t: string, k: nat, m: nat)
    requires !Contains(t, "```json")
    requires Find(t, "```", 0) == Some(k) && Find(t, "```", k + 3) == Some(m)
    ensures StripFences(t) == Strip(t[k + 3..m])
  {
    assert SecondPiece(t, "```") == t[k + 3..m];
    FirstPieceOfSliceWhole(t, k + 3, m, "```");
  }

  /** Without a `json` fence and with a single fence, the text kept is what follows it, stripped. */
  lemma PlainFenceUnclosed(t: string, k: nat)
    requires !Contains(t, "```json")
    requires Find(t, "```", 0) == Some(k) && Find(t, "```", k + 3) == None
    ensures StripFences(t) == Strip(t[k + 3..])
  {
    assert SecondPiece(t, "```") == t[k + 3..|t|];
    FirstPieceOfSliceWhole(t, k + 3, |t|, "```");
  }

  /** The Markdown fence clean-up applied to the accumulated text before decoding it. */
  function StripFences(t: string): (r: string)
    ensures !Contains(t, "```") ==> r == t
    ensures Contains(t, "```") ==> !Contains(r, "```")
  {
    JsonFenceIsFence(t);
    if Contains(t, "```json") then
      var piece := FirstPiece(SecondPiece(t, "```json"), "```");
      StripKeepsAbsence(piece, "```");
      Strip(piece)
    else if Contains(t, "```") then
      var piece := FirstPiece(SecondPiece(t, "```"), "```");
      StripKeepsAbsence(piece, "```");
      Strip(piece)
    else
      t
  }

  lemma StripKeepsAbsence(s: string, p: string)
    requires !Contains(s, p)
    ensures !Contains(Strip(s), p)
  {
    var lo, hi :| 0 <= lo <= hi <= |s| && Strip(s) == s[lo..hi];
    NotContainedInSlice(s, p, lo, hi);
  }

  /** A text with a `json` fence has a plain fence. */
  lemma JsonFenceIsFence(t: string)
    ensures Contains(t, "```json") ==> Contains(t, "```")
  {
    if Contains(t, "```json") {
      var i := Find(t, "```json", 0).value;
      assert t[i..i + 3] == t[i..i + 7][..3];
      ContainsWitness(t, "```", i);
    }
  }

  /** Cleaning up a cleaned-up text changes nothing. */
  lemma StripFencesIdempotent(t: string)
    ensures StripFences(StripFences(t)) == StripFences(t)
  {
    JsonFenceIsFence(t);
    JsonFenceIsFence(StripFences(t));
  }

  /** The report when the cleaned-up text cannot be read. */
  function ParsingErrorReport(sourceId: string): (r: SourceReport)
    ensures r.sourceId == sourceId && r.incidents == [] && r.status == AttentionRequired
    ensures r.recommendations == ["AI Analysis Failed (Parsing Error)"]
  {
    SourceReport(sourceId, status := AttentionRequired, recommendations := ["AI Analysis Failed (Parsing Error)"])
  }

  /** The report `analyze_source` returns. */
  function Analysis(sourceId: string, files: seq<FileData>, cv: SourceCV, ctx: Context,
                    runner: Runner, decode: string -> Option<Json>): (r: SourceReport)
    ensures r.sourceId == sourceId
  {
    match AdkCall(MakePrompt(sourceId, files, cv, ctx), runner, 0, [])
    case RateLimitExhausted => RateLimitReport(sourceId)
    case CallFailed(m) => ErrorReport(sourceId, m)
    case Answered(t) => Interpret(sourceId, decode(StripFences(t))).GetOr(ParsingErrorReport(sourceId))
  }

  /**
    The retry loop of `analyze_source`, with `response_text` declared once before it:
    how the call phase ends, and the sleeps between attempts, in order.
  */
  method CallAgent(prompt: Prompt, runner: Runner) returns (call: CallResult, waits: seq<nat>)
    ensures call == AdkCall(prompt, runner, 0, [])
    ensures waits == Waits(ThrottledRuns(prompt, runner), 0)
  {
    ghost var throttled := ThrottledRuns(prompt, runner);
    waits := [];
    var responseText: string := [];
    var attempt := 0;
    // As in the other agent, the loop is only ever left by `return`.
    while true
      invariant attempt < MaxRetries
      invariant waits + Waits(throttled, attempt) == Waits(throttled, 0)
      invariant AdkCall(prompt, runner, attempt, responseText) == AdkCall(prompt, runner, 0, [])
      decreases MaxRetries - attempt
    {
      var run := runner(prompt, attempt);
      responseText := AppendEventsText(responseText, run.events);
      var error: string;
      if run.raised.Some? {
        error := run.raised.value;
      } else if responseText != [] {
        assert waits + [] == waits;
        return Answered(responseText), waits;
      } else {
        error := NoResponseMessage;
        NoResponseIsNotRateLimited();
      }
      if !IsRateLimited(error) {
        assert waits + [] == waits;
        return CallFailed(error), waits;
      } else if attempt == MaxRetries - 1 {
        assert waits + [] == waits;
        return RateLimitExhausted, waits;
      }
      assert waits + Waits(throttled, attempt) == (waits + [Delay(attempt)]) + Waits(throttled, attempt + 1);
      waits := waits + [Delay(attempt)];
      attempt := attempt + 1;
    }
  }

  /**
    `analyze_source`: the call with retries, then the fallback report or the fence
    clean-up and the reading of the response.
  */
  method AnalyzeSource(sourceId: string, files: seq<FileData>, cv: SourceCV, ctx: Context,
                       runner: Runner, decode: string -> Option<Json>)
    returns (report: SourceReport, waits: seq<nat>)
    ensures report == Analysis(sourceId, files, cv, ctx, runner, decode)
    ensures waits == Waits(ThrottledRuns(MakePrompt(sourceId, files, cv, ctx), runner), 0)
  {
    var prompt := MakePrompt(sourceId, files, cv, ctx);
    var call;
    call, waits := CallAgent(prompt, runner);
    match call
    case RateLimitExhausted =>
      report := RateLimitReport(sourceId);
    case CallFailed(m) =>
      report := ErrorReport(sourceId, m);
    case Answered(responseText) =>
      var parsed := ParseResponse(sourceId, decode(StripFences(responseText)));
      if parsed.Some? {
        report := parsed.value;
      } else {
        report := ParsingErrorReport(sourceId);
      }
  }

  /**
    Every report is about the analysed source and so is each of its incidents; a
    report with incidents comes from a non-empty answer.
  */
  lemma AnalysisIsAboutSource(sourceId: string, files: seq<FileData>, cv: SourceCV, ctx: Context,
                              runner: Runner, decode: string -> Option<Json>)
    ensures var r := Analysis(sourceId, files, cv, ctx, runner, decode);
      && r.sourceId == sourceId
      && (forall k :: 0 <= k < |r.incidents| ==> r.incidents[k].sourceId == sourceId)
      && (r.incidents != [] ==>
            var call := AdkCall(MakePrompt(sourceId, files, cv, ctx), runner, 0, []);
            call.Answered? && call.text != [])
  {
    var p := MakePrompt(sourceId, files, cv, ctx);
    var call := AdkCall(p, runner, 0, []);
    AnswerExtendsAccumulated(p, runner, 0, []);
    if call.Answered? {
      var decoded := decode(StripFences(call.text));
      if Interpret(sourceId, decoded).Some? {
        InterpretedReport(sourceId, decoded.value.fields);
      }
    }
  }

  /** The report one job of the global report gets. */
  function JobReport(job: Job, lastWeek: Dict<seq<FileData>>, ctx: Context,
                     runner: Runner, decode: string -> Option<Json>): SourceReport
  {
    Analysis(job.sourceId, job.files, job.cv, SourceContext(ctx, lastWeek, job.sourceId), runner, decode)
  }

  /** `JobReport` for one run, as a function of the job. */
  function JobReports(lastWeek: Dict<seq<FileData>>, ctx: Context,
                      runner: Runner, decode: string -> Option<Json>): Job -> SourceReport
  {
    (job: Job) => JobReport(job, lastWeek, ctx, runner, decode)
  }

  /**
    `generate_global_report`: one analysis per source with a summary, in the order of
    today's files, each with that source's copy of the context.
  */
  method GenerateGlobalReport(dateStr: string, filesData: Dict<seq<FileData>>, lastWeek: Dict<seq<FileData>>,
                              cvs: map<string, SourceCV>, ctx: Context,
                              runner: Runner, decode: string -> Option<Json>)
    returns (report: GlobalReport)
    ensures report.date == dateStr
    ensures report.sourceReports == MapJobs(Selected(filesData, cvs), JobReports(lastWeek, ctx, runner, decode))
  {
    ghost var jobReport := JobReports(lastWeek, ctx, runner, decode);
    var sourceReports: seq<SourceReport> := [];
    var i := 0;
    while i < |filesData|
      invariant 0 <= i <= |filesData|
      invariant sourceReports == MapJobs(Selected(filesData[..i], cvs), jobReport)
    {
      ReportsStep(filesData, cvs, i, jobReport);
      var (sourceId, files) := filesData[i];
      if sourceId in cvs {
        var sourceContext := SourceContext(ctx, lastWeek, sourceId);
        var r, _ := AnalyzeSource(sourceId, files, cvs[sourceId], sourceContext, runner, decode);
        assert r == jobReport(Job(sourceId, files, cvs[sourceId]));
        sourceReports := sourceReports + [r];
      }
      i := i + 1;
    }
    assert filesData[..i] == filesData;
    return GlobalReport(dateStr, sourceReports);
  }
}
