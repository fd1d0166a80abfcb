# Data-source incident detection: a Dafny model

The system watches the daily file uploads of many data sources. For one run date it:

- loads the files each source uploaded that day and on the same weekday a week earlier (`files.json`, `files_last_weekday.json`);
- turns each source's Markdown behaviour summary (its "CV") into a `SourceCV`. This holds the workspace id, the file name pattern, the weekday upload schedule and per-weekday row statistics;
- asks a language model, per source, for a JSON verdict: the incidents, an overall status and recommendations;
- reads that verdict into a `SourceReport`, with fallbacks for unknown enumeration values and fallback reports for failures;
- folds the per-source reports into a `GlobalReport`.

An evaluation step scores a global report against hand-labelled ground truth, with URGENT as the positive class.

Two agents share this pipeline:

- `IncidentDetectionAgent` calls the model directly.
- `ADKIncidentAgent` runs an ADK agent and collects the text of the events it yields.

Both make at most five attempts, that is at most four retries. After a throttled attempt other than the fifth they sleep 10·2^attempt seconds; a throttled fifth attempt gives up. An error counts as throttling when its text contains "429" or "Resource exhausted".

Modules, one per concern:

| file | module | what it holds |
|---|---|---|
| `outcomes.dfy` | `Outcomes` | `Option`, Python exceptions (`PyError`) and `Outcome` (returned value or raised exception) |
| `text.dfy` | `Text` | Python string primitives: `isspace`, `in`/`find`, `strip`, `replace` |
| `json.dfy` | `JsonValue` | decoded JSON values |
| `models.dfy` | `Models` | the enumerations and records of `models.py` |
| `cv_scan.dfy` | `CvScan` | the regular-expression lookups of `parse_cv` as scanners, and `float()` on the extracted numbers |
| `input_preparer.dfy` | `InputPrep` | class `InputPreparer`: paths, the two loaders and `parse_cv` |
| `agent_common.dfy` | `AgentCommon` | prompt inputs, retry constants, fallback reports, reading the JSON verdict |
| `global_fold.dfy` | `GlobalFold` | which sources `generate_global_report` analyses and with what context |
| `agent_adk.dfy` | `AgentAdk` | `IncidentDetectionAgent.analyze_source` and `generate_global_report` |
| `agent_google_adk.dfy` | `AgentGoogleAdk` | `ADKIncidentAgent`: event text, fence clean-up, `analyze_source`, `generate_global_report` |
| `evaluation.dfy` | `Evaluation` | the confusion counts and precision, recall and F1 |

Things outside the program appear only through parameters:

- The language model is an oracle from (prompt inputs, attempt number) to a response text or an error message. For the ADK agent it gives the events yielded and the error raised, if any.
- `json.loads` is a parameter `decode: string -> Option<Json>`.
- Validating a raw item as `FileData` is a parameter `validate`.
- The file system is a map from path to content; a path is present exactly when the file exists.

How the code behaves, as modelled:

- The overall status of a report is copied from the model's answer. It is not computed from the incidents (`StatusIsNotDerived`).
- An incident may carry severity ALL_GOOD whenever the answer says so.
- `parse_cv` is not total: a statistics number with two dots makes `float()` raise `ValueError`, and that error escapes `parse_cv` (`TwoDotsRaise`).
- In `ADKIncidentAgent`, `response_text` is initialised once, before the retry loop. Text yielded by a throttled attempt is therefore kept and prefixed to what later attempts yield (`ThrottledTextCarriesOver`). `IncidentDetectionAgent` answers with the text of the deciding attempt alone (`FirstUnthrottledDecides`).

## Model

| member | source | states |
|---|---|---|
| `Models.SeverityFromValue` | src/models.py:6-9 | looking up a string gives the member whose value it is, and fails exactly when no member has that value |
| `Models.TypeFromValue` | src/models.py:11-18 | looking up a display string gives the incident type with that value, and fails exactly when no type has it |
| `Models.LookupsInvertValues` | src/models.py:6-18 | each lookup inverts its value function, so the three severity values and the seven type values are pairwise distinct |
| `Models.DefaultsAreEmpty` | src/models.py:39-50 | a report built from a source id alone has no incidents, no recommendations and status ALL_GOOD; an incident built without a file name has none |
| `Text.Find` | src/agent_adk.py:87 | the result is the leftmost occurrence at or after the start index; none means no occurrence there |
| `Text.ContainsIffOccurs` | src/agent_adk.py:87 | Python's `in` on strings holds exactly when the pattern occurs at some index |
| `Text.Strip` | src/agent_google_adk.py:177 | the result is a slice of the input with only whitespace cut from each end, and it neither starts nor ends with whitespace |
| `Text.Without` | src/input_preparer.py:131 | removing commas leaves no comma and keeps every other character with its multiplicity; `WithoutAppend` and `WithoutSeparator` fix the order |
| `Text.WithoutAbsent` | src/input_preparer.py:131 | a string without commas is left unchanged |
| `Text.WithoutAppend` | src/input_preparer.py:131 | removal distributes over concatenation, so the kept characters stay in their order |
| `Text.WithoutSeparator` | src/input_preparer.py:131 | removing the one comma between two comma-free parts joins the parts, as `"1,234"` becomes `"1234"` |
| `CvScan.Search` | src/input_preparer.py:102 | `re.search`: the reported match starts at the leftmost index where the pattern matches, and no match means it matches nowhere |
| `CvScan.WorkspaceId` | src/input_preparer.py:81-82 | the id is "Unknown" exactly when `Workspace ID**: ` is never followed by a digit; otherwise it is the maximal digit run after the leftmost such label |
| `CvScan.FilenamePattern` | src/input_preparer.py:86-87 | the pattern is empty exactly when ``Common structure: ` `` is never followed by back-quoted text; otherwise it is the text between the leftmost such label and the next backtick |
| `CvScan.ScheduleAt` | src/input_preparer.py:101 | a match at an index is a schedule row there (bar, blanks, day, blanks, bar, blanks, `dd:dd`, blanks, bar) and captures its time |
| `CvScan.StatsRowAt` | src/input_preparer.py:122 | a match at an index is a statistics row there and captures the non-empty bar-free cell after the day cell |
| `CvScan.PrefixedRunAt` | src/input_preparer.py:129 | `<label>(cls+)` matches at an index exactly when the label stands there followed by a class character, and captures the maximal run of class characters |
| `CvScan.QuotedAt` | src/input_preparer.py:86 | ``<label>([^`]+)` `` matches at an index exactly when the label stands there followed by quoted text, and captures the text up to the closing backtick |
| `CvScan.RowIsScheduleAt` | src/input_preparer.py:101 | conversely, for a weekday name every schedule row at an index is found there with its time |
| `CvScan.RowIsStatsRowAt` | src/input_preparer.py:122 | conversely, for a weekday name every statistics row at an index is found there with its cell |
| `CvScan.RunSearch` | src/input_preparer.py:81-82 | searching for `<label>(cls+)` finds the leftmost labelled run and its maximal run, and finds nothing exactly when there is none |
| `CvScan.QuotedSearch` | src/input_preparer.py:86 | searching for the quoted pattern finds the leftmost label followed by quoted text, with that text, and nothing exactly when there is none |
| `CvScan.FirstRun` | src/input_preparer.py:129-145 | the group of the first `<label>(cls+)` match: none exactly when no label is followed by a class character, otherwise the maximal run after the leftmost label |
| `CvScan.ScheduleTimeIsFirstRow` | src/input_preparer.py:101-104 | a day has a schedule time exactly when some schedule row for it exists, and the time is that of the leftmost row |
| `CvScan.StatsCellIsFirstRow` | src/input_preparer.py:122-125 | a day has a statistics cell exactly when some statistics row for it exists, and the cell is that of the leftmost row |
| `CvScan.ScheduleTimeIsClockTime` | src/input_preparer.py:101-104 | every schedule value is of the form `dd:dd` |
| `CvScan.ClockCellIsNotBarRun` | src/input_preparer.py:101-123 | in a schedule row the statistics pattern's run of non-bar characters ends exactly at the bar closing the time cell |
| `CvScan.ScheduleRowIsStatsRow` | src/input_preparer.py:101-123 | wherever the schedule pattern matches, the statistics pattern matches at the same index |
| `CvScan.ScheduledDayHasStatsCell` | src/input_preparer.py:96-124 | a day with a schedule time always has a statistics cell |
| `CvScan.ParseDecimal` | src/input_preparer.py:131 | `float()` on digits and dots succeeds exactly when there is at most one dot and at least one digit; without a dot the value is the digits' decimal value, with a dot at k it is the value of the digits with the dot removed divided by 10^(digits after the dot) |
| `CvScan.DigitsValueAppend` | src/input_preparer.py:131 | the value of concatenated digit strings is the first value shifted by the length of the second, plus the second value |
| `CvScan.TenthsAdd` | src/input_preparer.py:131 | dividing by 10^n distributes over a sum |
| `CvScan.TenthsShift` | src/input_preparer.py:131 | shifting by n digits and dividing by 10^n gives the number back |
| `CvScan.PointedValue` | src/input_preparer.py:131 | with a single dot, the digits before and after it are all digits, and whole part plus fraction equals the dot-free digits divided by 10^(digits after the dot) |
| `CvScan.ReadStat` | src/input_preparer.py:129-145 | a reading is absent exactly when the label is never followed by a number character; otherwise it is the leftmost labelled maximal token, with commas removed, converted by `float()`: its value, or the text `float()` rejects (a non-decimal text without commas) |
| `CvScan.CellStats` | src/input_preparer.py:126-146 | the cell's map has only the keys mean/min/max. It succeeds exactly when no token is unconvertible. A key is present exactly when its label matched, and then holds that token's value. When it raises, the error is the `ValueError` of the first unconvertible token in the order mean, min, max |
| `CvScan.TwoDotsRaise` | src/input_preparer.py:129-131 | a cell whose mean reads `1.2.3` raises instead of yielding statistics |
| `CvScan.SampleMeanIsUnconvertible` | src/input_preparer.py:129-131 | the mean of `Mean: 1.2.3` reads as the unconvertible text `1.2.3` |
| `CvScan.UnconvertibleToken` | src/input_preparer.py:129-131 | a first token without commas that `float()` rejects is read as unconvertible with that text |
| `InputPrep.ValidItemsAppend` | src/input_preparer.py:29-37 | filtering splits over concatenation, so kept items keep their relative order |
| `InputPrep.ValidItems` | src/input_preparer.py:30-36 | no more items come out than go in, and all come out when every item validates |
| `InputPrep.ValidItemsFromInput` | src/input_preparer.py:31-35 | every kept item is the validation of an input item, and no more items come out than went in |
| `InputPrep.AllValidKeepsAll` | src/input_preparer.py:31-35 | when every item validates, all are kept, item by item in order |
| `InputPrep.ParseEntries` | src/input_preparer.py:28-37 | the parsed dict has the raw keys in order, each with exactly the valid items of its list |
| `InputPrep.ExtractSchedule` | src/input_preparer.py:96-104 | the schedule has an entry exactly for the days whose row matches, holding the first match's time |
| `InputPrep.ExtractVolumeStats` | src/input_preparer.py:109-148 | the statistics map has an entry exactly for the days whose row matches; it raises exactly when some day's conversion fails, with the first failing day's error |
| `InputPrep.ExtractedSummaryShape` | src/input_preparer.py:96-148 | an extracted summary has weekday keys only, `dd:dd` times and mean/min/max statistics keys, and every scheduled day has statistics |
| `InputPrep.UnmatchedDayIsAbsent` | src/input_preparer.py:103-124 | a day whose row does not match has neither a schedule entry nor a statistics entry; it is never defaulted |
| `InputPrep.InputPreparer.constructor` | src/input_preparer.py:9-11 | the summary directory is `<data_dir>/Files/datasource_cvs` |
| `InputPrep.PathJoin` | src/input_preparer.py:20 | `os.path.join` of two parts: an absolute second part replaces the first; otherwise the result is the first part, then nothing or a single "/", then the second part. The "/" is added exactly when the first part is non-empty and does not already end in "/", so a non-empty first part is always followed by "/" |
| `InputPrep.InputPreparer.DateDirLayout` | src/input_preparer.py:19-20 | the date directory is `<data_dir>/Files/<date>_20_00_UTC` |
| `InputPrep.InputPreparer.DataPathsLayout` | src/input_preparer.py:19-46 | both input files sit directly in the date directory |
| `InputPrep.InputPreparer.LoadFilesData` | src/input_preparer.py:13-39 | a missing `files.json` raises `FileNotFoundError` with the date and path in its message; otherwise every source is kept with its valid items |
| `InputPrep.InputPreparer.LoadLastWeekdayFiles` | src/input_preparer.py:41-66 | a missing last-week file gives an empty dict; otherwise every source is kept with its valid items |
| `InputPrep.InputPreparer.ParseCv` | src/input_preparer.py:68-156 | a missing summary gives no CV. Otherwise it raises exactly when some weekday's statistics fail to convert, with the first such error, or returns the summary extracted from the text |
| `AgentCommon.DelaysSum` | src/agent_adk.py:88-89 | the first n delays add up to 10·(2^n − 1) seconds |
| `AgentCommon.MakePrompt` | src/agent_adk.py:19-24 | the prompt carries the date, the source id, the CV and today's files, and last week's files or an empty list when the context has none |
| `AgentCommon.DelaysAt` | src/agent_adk.py:89 | the k-th delay is 10·2^k seconds |
| `AgentCommon.WaitsFollowThrottling` | src/agent_adk.py:81-91 | from any attempt on, one sleep of 10·2^k seconds follows each throttled attempt k that is not the fifth; the sleeps stop at the first unthrottled attempt or at the fifth |
| `AgentCommon.WaitsOfCall` | src/agent_adk.py:81-91 | a call's sleeps are the first n doubling delays, n below five, where attempts 0..n−1 are throttled and attempt n is not, or is the fifth |
| `AgentCommon.RateLimitedIffMarked` | src/agent_adk.py:87 | an error is throttling exactly when its text contains "429" or "Resource exhausted" |
| `AgentCommon.RateLimitedIffOccurs` | src/agent_adk.py:87 | an error is throttling exactly when one of the two markers occurs at some index of its text |
| `AgentCommon.NotRateLimitedWithoutMarkerHeads` | src/agent_adk.py:87 | a text containing neither '4' nor 'R' is never a throttling error |
| `AgentCommon.TotalWaitAtMost150` | src/agent_adk.py:81-91 | with at most four sleeps, one source never waits more than 150 seconds |
| `AgentCommon.RateLimitReport` | src/agent_adk.py:92-94 | giving up on throttling yields an ATTENTION_REQUIRED report for the source with no incidents and the single recommendation "AI Analysis Failed (Rate Limit)" |
| `AgentCommon.ErrorReport` | src/agent_adk.py:95-97 | any other call error yields an ATTENTION_REQUIRED report for the source with no incidents and the single recommendation "AI Analysis Failed: " followed by the error text |
| `AgentCommon.TypeOrFallback` | src/agent_adk.py:106-110 | a known display string gives its type; anything else gives Failed File |
| `AgentCommon.SeverityOrFallback` | src/agent_adk.py:112-115 | a known severity value gives its member; anything else gives ATTENTION_REQUIRED |
| `AgentCommon.IncidentOf` | src/agent_adk.py:117-123 | an element becomes an incident tagged with the analysed source exactly when it is an object with a string description and a string or null file name; its fields are the fallback-mapped type and severity, the description and the file name |
| `AgentCommon.MapIncidents` | src/agent_adk.py:103-123 | the list succeeds exactly when every element does, and then has one incident per element, in order |
| `AgentCommon.MapIncidentsFailsOnExtension` | src/agent_adk.py:103-123 | once a prefix of the list fails, the whole list fails |
| `AgentCommon.CollectIncidents` | src/agent_adk.py:103-123 | the appending loop computes the mapped incident list |
| `AgentCommon.Interpret` | src/agent_adk.py:100-133 | a readable answer is a decoded JSON object, and its report and every incident carry the analysed source id |
| `AgentCommon.Strings` | src/agent_adk.py:126-132 | a JSON list is read as strings exactly when every element is a string, and then gives those strings, one per element, in order |
| `AgentCommon.ParseResponse` | src/agent_adk.py:99-133 | reading the answer with the loop agrees with reading it as a whole |
| `AgentCommon.InterpretedReport` | src/agent_adk.py:103-133 | a readable answer gives one incident per element, in order, each tagged with the source; the status is the answer's own (ALL_GOOD when absent); the recommendations are empty when absent, and otherwise the answer's list of strings, element by element |
| `AgentCommon.StatusIsNotDerived` | src/agent_adk.py:125 | an answer with an URGENT incident and status ALL_GOOD is read as ALL_GOOD |
| `AgentCommon.UnreadableAnswers` | src/agent_adk.py:99-135 | an unknown status value, or an incident without a description, makes the whole answer unreadable |
| `AgentAdk.ParseFailureReport` | src/agent_adk.py:135-138 | an unreadable answer yields an ATTENTION_REQUIRED report for the source with no incidents and the single recommendation "AI Analysis Failed" |
| `AgentAdk.CallWithRetry` | src/agent_adk.py:81-97 | the retry discipline: giving up on throttling means the fifth attempt was throttled; a call error is never a throttling error |
| `AgentAdk.Analysis` | src/agent_adk.py:76-138 | the report of one source carries that source's id |
| `AgentAdk.CallModel` | src/agent_adk.py:77-97 | the retry loop ends the way the retry discipline defines, and its sleeps are those that follow its throttled attempts (`WaitsOfCall`) |
| `AgentAdk.AnalyzeSource` | src/agent_adk.py:76-138 | the loop returns the report the retry discipline and the reading define, and its sleeps are those that follow its throttled attempts |
| `AgentAdk.ThrottledSkipped` | src/agent_adk.py:81-91 | throttled attempts are retried without effect on the outcome |
| `AgentAdk.FirstUnthrottledDecides` | src/agent_adk.py:81-97 | the first attempt that is not throttled decides: its text is the answer, or its error ends the call |
| `AgentAdk.RateLimitExhaustedIffAllThrottled` | src/agent_adk.py:87-94 | the call gives up on throttling exactly when every remaining attempt is throttled |
| `AgentAdk.AnalysisIsAboutSource` | src/agent_adk.py:99-133 | every report and each of its incidents carry the analysed source id; a report with incidents comes from an answer |
| `AgentAdk.GenerateGlobalReport` | src/agent_adk.py:140-159 | the global report carries the date and one report per selected source, in order, each analysed with that source's context |
| `GlobalFold.MapJobs` | src/agent_adk.py:145-157 | one report per job, in the jobs' order, each the report of that job |
| `GlobalFold.Selected` | src/agent_adk.py:145-148 | the sources analysed are no more than today's entries |
| `GlobalFold.SourceContext` | src/agent_adk.py:151-152 | a source's context keeps the date and sets last week's files to the source's entry, or an empty list when it has none |
| `GlobalFold.ReportsStep` | src/agent_adk.py:145-155 | one more iteration of the loop appends exactly the report of its entry when the source has a CV, and nothing otherwise |
| `GlobalFold.SelectedStep` | src/agent_adk.py:145-155 | one more entry of today's files adds exactly its own job when its source has a CV, and nothing otherwise |
| `GlobalFold.SelectedAppend` | src/agent_adk.py:145-155 | selection distributes over concatenation, so the order of today's files is kept |
| `GlobalFold.SelectedSound` | src/agent_adk.py:145-154 | every analysed source has a CV, is analysed with that CV, and is analysed with one of its entries' files |
| `GlobalFold.SelectedComplete` | src/agent_adk.py:145-155 | every source with a CV is analysed |
| `GlobalFold.SelectedAllCovered` | src/agent_adk.py:145-155 | when every source has a CV, each entry is analysed once, in order |
| `GlobalFold.UnsummarisedSkipped` | src/agent_adk.py:146-148 | sources without a CV contribute no report |
| `AgentGoogleAdk.EventsTextAppend` | src/agent_google_adk.py:145-150 | the text of concatenated event runs is the concatenation of their texts |
| `AgentGoogleAdk.AppendEventsText` | src/agent_google_adk.py:145-150 | the event loop appends exactly the events' text to what was already accumulated |
| `AgentGoogleAdk.AdkCall` | src/agent_google_adk.py:118-171 | the accumulating retry discipline: giving up on throttling means the fifth attempt raised a throttling error; a call error is never a throttling error |
| `AgentGoogleAdk.ThrottledRunsCarry` | src/agent_google_adk.py:118-165 | throttled attempts only pass their text on: after a run of throttled attempts the call continues at the next attempt with their texts appended, in order |
| `AgentGoogleAdk.FirstUnthrottledRunDecides` | src/agent_google_adk.py:145-171 | the first attempt without a throttling error decides: its own error ends the call with that message; a clean finish answers with all text yielded so far, or fails with the no-response error when there is none |
| `AgentGoogleAdk.GivesUpIffAllThrottled` | src/agent_google_adk.py:160-168 | the call gives up on throttling exactly when every remaining attempt raised a throttling error |
| `AgentGoogleAdk.NoResponseIsNotRateLimited` | src/agent_google_adk.py:155-161 | the no-response error contains neither "429" nor "Resource exhausted", so it is never retried |
| `AgentGoogleAdk.AnswerExtendsAccumulated` | src/agent_google_adk.py:118-156 | an answer is never empty and starts with all text accumulated before the attempt |
| `AgentGoogleAdk.EmptyFirstRunFails` | src/agent_google_adk.py:155-171 | a clean first attempt with no text ends the call with the no-response error |
| `AgentGoogleAdk.ThrottledTextCarriesOver` | src/agent_google_adk.py:118-165 | text from a throttled attempt is kept: the answer is the text of both attempts, even when the second yields nothing |
| `AgentGoogleAdk.FirstPiece` | src/agent_google_adk.py:177-179 | `split(sep)[0]`: the prefix of the text that ends at the first separator, or the whole text when there is none |
| `AgentGoogleAdk.SecondPiece` | src/agent_google_adk.py:177-179 | `split(sep)[1]`: the slice that starts after the first separator and ends at the next separator or at the end of the text |
| `AgentGoogleAdk.StripFences` | src/agent_google_adk.py:176-179 | text without a fence is left unchanged; text with a fence is cut to a piece containing no fence |
| `AgentGoogleAdk.JsonFenceContent` | src/agent_google_adk.py:176-177 | with a `json` fence, the result is the stripped text between the first "```json" and the next "```" |
| `AgentGoogleAdk.JsonFenceUnclosed` | src/agent_google_adk.py:176-177 | with a `json` fence that is never closed, the result is the stripped text after it |
| `AgentGoogleAdk.PlainFenceContent` | src/agent_google_adk.py:178-179 | with only plain fences, the result is the stripped text between the first and the second "```" |
| `AgentGoogleAdk.PlainFenceUnclosed` | src/agent_google_adk.py:178-179 | with a single plain fence, the result is the stripped text after it |
| `AgentGoogleAdk.JsonFenceIsFence` | src/agent_google_adk.py:176-178 | a `json` fence is also a plain fence, so the second branch only sees text without a `json` fence |
| `AgentGoogleAdk.StripFencesIdempotent` | src/agent_google_adk.py:176-179 | cleaning up a cleaned-up text changes nothing |
| `AgentGoogleAdk.ParsingErrorReport` | src/agent_google_adk.py:213-216 | an unreadable answer yields an ATTENTION_REQUIRED report for the source with no incidents and the single recommendation "AI Analysis Failed (Parsing Error)" |
| `AgentGoogleAdk.Analysis` | src/agent_google_adk.py:115-216 | the report of one source carries that source's id |
| `AgentGoogleAdk.CallAgent` | src/agent_google_adk.py:115-171 | the retry loop, with its text kept across attempts, ends the way the accumulating retry discipline defines, and its sleeps are those that follow the attempts that raised a throttling error |
| `AgentGoogleAdk.AnalyzeSource` | src/agent_google_adk.py:115-216 | the loop returns the report the accumulating retry discipline, the fence clean-up and the reading define, and its sleeps are those that follow the throttled attempts |
| `AgentGoogleAdk.AnalysisIsAboutSource` | src/agent_google_adk.py:183-211 | every report and each of its incidents carry the analysed source id; a report with incidents comes from a non-empty answer |
| `AgentGoogleAdk.GenerateGlobalReport` | src/agent_google_adk.py:218-237 | the global report carries the date and one report per selected source, in order, each analysed with that source's context |
| `Evaluation.Classify` | src/evaluation.py:67-82 | a report is predicted positive exactly when its status is URGENT, and actually positive exactly when its truth is URGENT |
| `Evaluation.CountsPartition` | src/evaluation.py:63-82 | every row has exactly one verdict, so the four counts add up to the number of rows |
| `Evaluation.Tally` | src/evaluation.py:56-84 | one result row per report, in order; each counter is the number of rows with its verdict, and the four sum to the number of reports |
| `Evaluation.AbsentIsNegative` | src/evaluation.py:65 | a source without ground truth counts as ALL_GOOD, so it is only ever FP or TN |
| `Evaluation.GroundTruthPositives` | src/evaluation.py:11-17 | against the ground truth, a report is an actual positive exactly when its source is one of the five labelled ids |
| `Evaluation.Precision` | src/evaluation.py:92 | precision is in [0, 1], is 0 when nothing is predicted positive, and otherwise is tp/(tp+fp) |
| `Evaluation.Recall` | src/evaluation.py:93 | recall is in [0, 1], is 0 when there is no actual positive, and otherwise is tp/(tp+fn) |
| `Evaluation.F1` | src/evaluation.py:94 | F1 is 0 when precision and recall are both 0, and otherwise their harmonic mean |
| `Evaluation.F1Between` | src/evaluation.py:92-94 | F1 lies between precision and recall, so within [0, 1] |
| `Evaluation.PerfectScores` | src/evaluation.py:92-94 | with only true positives, precision, recall and F1 are all 1 |

## Left out

- The language model, the ADK `Agent`, `Runner` and session service, and the session ids built from the clock: all become the oracle parameter.
- The prompt's wording, and the detector and severity rules written in it. The code never applies them; `MakePrompt` keeps only the values the prompt is formatted from.
- `json.load`/`json.loads` and pydantic validation: these are parameters. The loaders take the decoded object of `files.json` as an ordered list of (source, items) pairs. A file whose top level is not an object is not modelled, nor a per-source value that is not a list (null, a number, a boolean), where `for file_item in files` raises `TypeError` out of the loader.
- Pydantic's coercions when building `SourceReport`/`Incident` are reduced to type tests. A string description, a string or null file name, and a list of strings as recommendations are accepted; anything else is refused.
- File-system access: a map from path to content stands for `os.path.exists` and `open`.
- `time.sleep`: the sleeps between attempts are returned as a list of delays. The 4-second pause between sources is not modelled.
- `print` logging, the `tabulate` table and the rounding of printed metrics.
- `float()` rounding: numbers are exact reals, and precision, recall and F1 are exact reals too.
- `CvScan.WorkspaceId`, `CvScan.ScheduleAt`, `CvScan.PrefixedRunAt`, `CvScan.ReadStat`: `\d` is narrowed to ASCII digits. Python's `re` also accepts other Unicode decimal digits there.
- `CvScan.ReadStat`: the `\d` of `[\d,.]+` is narrowed the same way, so a cell reading `Mean: ٥` gives no mean, where Python's `re` and `float()` give 5.0.
- The date in the context is already formatted `YYYY-MM-DD`; `strftime` is not modelled.
- The constructors of both agents (API key, model handle, the shared session).
- The orchestration in `evaluate_agent` is not modelled: the API-key check, the summary loop, the restriction of today's files to the labelled sources, and the call to `generate_global_report`. Its counting loop and metrics are modelled.
- Dictionaries decoded from JSON are lists of (key, value) pairs, and nothing excludes a repeated key. A decoded JSON object has none; where one occurs, `DictGet` takes the first pair.
- `AgentGoogleAdk.JsonFenceContent`: does not cover a closing "```" that runs into a following "```json" (four or five backticks then `json`), where Python's first split cuts inside the closing fence; `StripFences` itself handles that text, and its no-fence result still holds.
- src/main.py (command line, `.env`) and test_adk.py (a smoke test against the live service) are not part of this model.
