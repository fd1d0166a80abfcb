/**
  The regular-expression lookups of the behaviour-summary parser, each written as a
  scanner over the text. `re.search` tries every start index from the left and
  reports the first at which the pattern matches; for each pattern below the
  attempt at one index is deterministic, so a scanner per pattern plus `Search`
  gives exactly the first match and its group.
*/
module CvScan {
  import opened Outcomes
  import opened Text

  /** A match reported by `re.search`: its start index and the text of group 1. */
  datatype Found = Found(pos: nat, group: string)

  /** A pattern, as the group it yields when tried at one start index of a text. */
  type Matcher = (string, nat) -> Option<string>

  /** `re.search`: the leftmost start index, at or after `from`, at which `m` matches. */
  function Search(s: string, from: nat, m: Matcher): (r: Option<Found>)
    ensures r.Some? ==> from <= r.value.pos <= |s| && m(s, r.value.pos) == Some(r.value.group)
    ensures r.Some? ==> forall j :: from <= j < r.value.pos ==> m(s, j).None?
    ensures r.None? ==> forall j :: from <= j <= |s| ==> m(s, j).None?
    decreases |s| + 1 - from
  {
    if from > |s| then None
    else
      match m(s, from)
      case Some(g) => Some(Found(from, g))
      case None => Search(s, from + 1, m)
  }

  /** End of the longest run of characters in class `cls` that starts at `i` (a greedy `[...]*`). */
  function RunEnd(s: string, i: nat, cls: char -> bool): (k: nat)
    requires i <= |s|
    ensures i <= k <= |s|
    ensures forall j :: i <= j < k ==> cls(s[j])
    ensures k < |s| ==> !cls(s[k])
    decreases |s| - i
  {
    if i < |s| && cls(s[i]) then RunEnd(s, i + 1, cls) else i
  }

  /** A greedy run stops exactly at the first character outside its class. */
  lemma {:induction false} RunEndAt(s: string, i: nat, q: nat, cls: char -> bool)
    requires i <= q < |s| && !cls(s[q])
    requires forall j :: i <= j < q ==> cls(s[j])
    ensures RunEnd(s, i, cls) == q
    decreases q - i
  {
    if i < q {
      RunEndAt(s, i + 1, q, cls);
    }
  }

  predicate NotBar(c: char) { c != '|' }

  predicate NotBacktick(c: char) { c != '`' }

  /** A character of the class `[\d,.]`. */
  predicate IsNumberChar(c: char) { IsDigit(c) || c == ',' || c == '.' }

  /** Text of the shape `\d{2}:\d{2}`. */
  predicate IsClockTime(t: string) {
    |t| == 5 && IsDigit(t[0]) && IsDigit(t[1]) && t[2] == ':' && IsDigit(t[3]) && IsDigit(t[4])
  }

  // ---- what each pattern matches, stated without the scanners ----

  /** `s[lo..hi]` is whitespace only: what a `\s*` can consume. */
  predicate Blank(s: string, lo: nat, hi: nat) {
    lo <= hi <= |s| && forall j :: lo <= j < hi ==> IsSpace(s[j])
  }

  /** `g` is the longest run of `cls` characters that starts at `p`: what a greedy `(cls+)` captures there. */
  predicate MaximalRun(s: string, p: nat, g: string, cls: char -> bool) {
    && g != [] && p + |g| <= |s| && s[p..p + |g|] == g
    && (forall k :: 0 <= k < |g| ==> cls(g[k]))
    && (p + |g| < |s| ==> !cls(s[p + |g|]))
  }

  /** `<prefix>(cls+)` matches at `i`: the prefix stands there and a `cls` character follows it. */
  predicate LabelledRunAt(s: string, i: nat, prefix: string, cls: char -> bool) {
    OccursAt(s, i, prefix) && i + |prefix| < |s| && cls(s[i + |prefix|])
  }

  /** `i` is the leftmost index at which `<prefix>(cls+)` matches. */
  predicate FirstLabelledRun(s: string, i: nat, prefix: string, cls: char -> bool) {
    LabelledRunAt(s, i, prefix, cls) && forall j: nat :: j < i ==> !LabelledRunAt(s, j, prefix, cls)
  }

  /** `g` is non-empty, has no backtick and is closed by one: what `([^`]+)` followed by a backtick captures at `p`. */
  predicate QuotedText(s: string, p: nat, g: string) {
    && g != [] && p + |g| < |s| && s[p..p + |g|] == g && s[p + |g|] == '`'
    && forall k :: 0 <= k < |g| ==> g[k] != '`'
  }

  /** `<prefix>([^`]+)` followed by a backtick matches at `i`. */
  ghost predicate QuotedAfter(s: string, i: nat, prefix: string) {
    OccursAt(s, i, prefix) && HasQuotedText(s, i + |prefix|)
  }

  /** Some quoted text stands at `p`. */
  ghost predicate HasQuotedText(s: string, p: nat) {
    exists g :: QuotedText(s, p, g)
  }

  /** `\|\s*<day>\s*\|` matches at `i`, with the day at `a` and the closing bar at `b`. */
  predicate DayCell(s: string, i: nat, day: string, a: nat, b: nat) {
    && i < |s| && s[i] == '|' && Blank(s, i + 1, a) && OccursAt(s, a, day)
    && Blank(s, a + |day|, b) && b < |s| && s[b] == '|'
  }

  /** The schedule pattern matches at `i` through this day cell, with the time `t` at `p` and the last bar at `q`. */
  predicate ScheduleSplit(s: string, i: nat, day: string, a: nat, b: nat, p: nat, q: nat, t: string) {
    && DayCell(s, i, day, a, b) && Blank(s, b + 1, p) && IsClockTime(t) && OccursAt(s, p, t)
    && Blank(s, p + |t|, q) && q < |s| && s[q] == '|'
  }

  /** `\|\s*<day>\s*\|\s*(\d{2}:\d{2})\s*\|` matches at `i` and captures `t`. */
  ghost predicate ScheduleRow(s: string, i: nat, day: string, t: string) {
    exists a: nat, b: nat, p: nat, q: nat :: ScheduleSplit(s, i, day, a, b, p, q, t)
  }

  /**
    The statistics pattern matches at `i` through this day cell and captures `g`, the
    bar-free text from `p` up to the bar at `q`. The `\s*` before the group keeps every
    blank it can while leaving `[^|]+` one character, so `s[p]` is a blank only when
    it is the single character left.
  */
  predicate StatsSplit(s: string, i: nat, day: string, a: nat, b: nat, p: nat, q: nat, g: string) {
    && DayCell(s, i, day, a, b) && Blank(s, b + 1, p) && p < q < |s| && s[q] == '|'
    && (forall m :: p <= m < q ==> s[m] != '|')
    && g == s[p..q] && (p + 1 == q || !IsSpace(s[p]))
  }

  /** `\|\s*<day>\s*\|\s*([^|]+)\|` matches at `i` and captures `g`. */
  ghost predicate StatsRow(s: string, i: nat, day: string, g: string) {
    exists a: nat, b: nat, p: nat, q: nat :: StatsSplit(s, i, day, a, b, p, q, g)
  }

  /** A day name that starts with a non-blank, as the weekday names do, so the first `\s*` never gives a blank back. */
  predicate DayToken(day: string) {
    day != [] && !IsSpace(day[0])
  }

  // ---- the scanners ----

  /**
    `\|\s*<day>\s*\|` tried at `i`; yields the index just after the second bar.
    Each `\s*` is followed by a non-blank, so neither ever gives a character back.
  */
  function DayCellEnd(s: string, i: nat, day: string): (r: Option<nat>)
    ensures r.Some? ==> i < r.value <= |s| && DayCell(s, i, day, RunEnd(s, i + 1, IsSpace), r.value - 1)
  {
    if i < |s| && s[i] == '|' then
      var a := RunEnd(s, i + 1, IsSpace);
      if OccursAt(s, a, day) then
        var b := RunEnd(s, a + |day|, IsSpace);
        if b < |s| && s[b] == '|' then Some(b + 1) else None
      else None
    else None
  }

  /** For a day token, every day cell at `i` is the one the scanner finds. */
  lemma DayCellEndAt(s: string, i: nat, day: string, a: nat, b: nat)
    requires DayToken(day) && DayCell(s, i, day, a, b)
    ensures DayCellEnd(s, i, day) == Some(b + 1)
  {
    assert s[a] == s[a..a + |day|][0];
    RunEndAt(s, i + 1, a, IsSpace);
    RunEndAt(s, a + |day|, b, IsSpace);
  }

  /** The schedule row pattern tried at `i`. */
  function ScheduleAt(s: string, i: nat, day: string): (r: Option<string>)
    ensures r.Some? ==> IsClockTime(r.value) && ScheduleRow(s, i, day, r.value)
  {
    match DayCellEnd(s, i, day)
    case None => None
    case Some(j) =>
      var r := ClockCell(s, j);
      if r.Some? then
        var p := RunEnd(s, j, IsSpace);
        assert ScheduleSplit(s, i, day, RunEnd(s, i + 1, IsSpace), j - 1, p, RunEnd(s, p + 5, IsSpace), r.value);
        r
      else r
  }

  /** `\s*(\d{2}:\d{2})\s*\|` tried at `j`, just after a day cell. */
  function ClockCell(s: string, j: nat): (r: Option<string>)
    requires j <= |s|
    ensures r.Some? ==>
      var p := RunEnd(s, j, IsSpace);
      && p + 5 <= |s| && r.value == s[p..p + 5] && IsClockTime(r.value)
      && RunEnd(s, p + 5, IsSpace) < |s| && s[RunEnd(s, p + 5, IsSpace)] == '|'
  {
    var p := RunEnd(s, j, IsSpace);
    if p + 5 <= |s| && IsClockTime(s[p..p + 5]) then
      var q := RunEnd(s, p + 5, IsSpace);
      if q < |s| && s[q] == '|' then Some(s[p..p + 5]) else None
    else None
  }

  /** For a day token, the scanner finds every schedule row, with its time. */
  lemma RowIsScheduleAt(s: string, i: nat, day: string, t: string)
    requires DayToken(day) && ScheduleRow(s, i, day, t)
    ensures ScheduleAt(s, i, day) == Some(t)
  {
    var a: nat, b: nat, p: nat, q: nat :| ScheduleSplit(s, i, day, a, b, p, q, t);
    SplitIsScheduleAt(s, i, day, a, b, p, q, t);
  }

  lemma SplitIsScheduleAt(s: string, i: nat, day: string, a: nat, b: nat, p: nat, q: nat, t: string)
    requires DayToken(day) && ScheduleSplit(s, i, day, a, b, p, q, t)
    ensures ScheduleAt(s, i, day) == Some(t)
  {
    DayCellEndAt(s, i, day, a, b);
    assert RunEnd(s, b + 1, IsSpace) == p by {
      assert s[p] == s[p..p + 5][0] == t[0];
      RunEndAt(s, b + 1, p, IsSpace);
    }
    assert p + 5 <= |s| && s[p..p + 5] == t;
    assert RunEnd(s, p + 5, IsSpace) == q by {
      RunEndAt(s, p + 5, q, IsSpace);
    }
    ScheduleAtFrom(s, i, day, b + 1, p, q);
  }

  /** The steps of the schedule scanner, taken one at a time. */
  lemma ScheduleAtFrom(s: string, i: nat, day: string, j: nat, p: nat, q: nat)
    requires DayCellEnd(s, i, day) == Some(j) && j <= |s| && RunEnd(s, j, IsSpace) == p
    requires p + 5 <= |s| && IsClockTime(s[p..p + 5])
    requires RunEnd(s, p + 5, IsSpace) == q && q < |s| && s[q] == '|'
    ensures ScheduleAt(s, i, day) == Some(s[p..p + 5])
  {
    ClockCellFrom(s, j, p, q);
    ScheduleAtIsClockCell(s, i, day, j);
  }

  lemma ClockCellFrom(s: string, j: nat, p: nat, q: nat)
    requires j <= |s| && RunEnd(s, j, IsSpace) == p
    requires p + 5 <= |s| && IsClockTime(s[p..p + 5])
    requires RunEnd(s, p + 5, IsSpace) == q && q < |s| && s[q] == '|'
    ensures ClockCell(s, j) == Some(s[p..p + 5])
  {
  }

  lemma ScheduleAtIsClockCell(s: string, i: nat, day: string, j: nat)
    requires DayCellEnd(s, i, day) == Some(j)
    ensures ScheduleAt(s, i, day) == ClockCell(s, j)
  {
  }

  /** The statistics row pattern tried at `i`. */
  function StatsRowAt(s: string, i: nat, day: string): (r: Option<string>)
    ensures r.Some? ==> r.value != [] && StatsRow(s, i, day, r.value)
  {
    match DayCellEnd(s, i, day)
    case None => None
    case Some(j) =>
      var p := RunEnd(s, j, IsSpace);
      var q := RunEnd(s, p, NotBar);
      if q == |s| then None
      else if q > p then
        assert StatsSplit(s, i, day, RunEnd(s, i + 1, IsSpace), j - 1, p, q, s[p..q]);
        Some(s[p..q])
      else if p > j then
        assert StatsSplit(s, i, day, RunEnd(s, i + 1, IsSpace), j - 1, p - 1, p, s[p - 1..p]);
        Some(s[p - 1..p])
      else None
  }

  /** For a day token, the scanner finds every statistics row, with its cell. */
  lemma RowIsStatsRowAt(s: string, i: nat, day: string, g: string)
    requires DayToken(day) && StatsRow(s, i, day, g)
    ensures StatsRowAt(s, i, day) == Some(g)
  {
    var a: nat, b: nat, p: nat, q: nat :| StatsSplit(s, i, day, a, b, p, q, g);
    SplitIsStatsRowAt(s, i, day, a, b, p, q, g);
  }

  lemma SplitIsStatsRowAt(s: string, i: nat, day: string, a: nat, b: nat, p: nat, q: nat, g: string)
    requires DayToken(day) && StatsSplit(s, i, day, a, b, p, q, g)
    ensures StatsRowAt(s, i, day) == Some(g)
  {
    DayCellEndAt(s, i, day, a, b);
    if IsSpace(s[p]) {
      BlankCellIsStatsRowAt(s, i, day, a, b, p, q, g);
    } else {
      assert RunEnd(s, b + 1, IsSpace) == p by {
        RunEndAt(s, b + 1, p, IsSpace);
      }
      assert RunEnd(s, p, NotBar) == q by {
        RunEndAt(s, p, q, NotBar);
      }
      StatsRowAtFrom(s, i, day, b + 1, p, q);
    }
  }

  /** A cell of blanks only: the group is its last blank, which the `\s*` gives back. */
  lemma BlankCellIsStatsRowAt(s: string, i: nat, day: string, a: nat, b: nat, p: nat, q: nat, g: string)
    requires DayCellEnd(s, i, day) == Some(b + 1)
    requires StatsSplit(s, i, day, a, b, p, q, g) && IsSpace(s[p])
    ensures StatsRowAt(s, i, day) == Some(g)
  {
    assert RunEnd(s, b + 1, IsSpace) == q by {
      RunEndAt(s, b + 1, q, IsSpace);
    }
    StatsRowAtFrom(s, i, day, b + 1, q, q);
  }

  /** The steps of the statistics scanner, taken one at a time. */
  lemma StatsRowAtFrom(s: string, i: nat, day: string, j: nat, p: nat, q: nat)
    requires DayCellEnd(s, i, day) == Some(j) && j <= |s| && RunEnd(s, j, IsSpace) == p
    requires p <= |s| && RunEnd(s, p, NotBar) == q && q < |s|
    ensures q > p ==> StatsRowAt(s, i, day) == Some(s[p..q])
    ensures q == p && p > j ==> StatsRowAt(s, i, day) == Some(s[p - 1..p])
  {
  }

  /** `<prefix>(<cls>+)` tried at `i`: the greedy run of `cls` characters after the prefix. */
  function PrefixedRunAt(s: string, i: nat, prefix: string, cls: char -> bool): (r: Option<string>)
    ensures r.Some? <==> LabelledRunAt(s, i, prefix, cls)
    ensures r.Some? ==> MaximalRun(s, i + |prefix|, r.value, cls)
  {
    var p := i + |prefix|;
    if OccursAt(s, i, prefix) && p < |s| && cls(s[p]) then Some(s[p..RunEnd(s, p, cls)]) else None
  }

  /** Whatever quoted text stands at `p` ends where the run of non-backticks from `p` ends. */
  lemma QuotedTextEnds(s: string, p: nat)
    requires p <= |s|
    ensures forall g :: QuotedText(s, p, g) ==> RunEnd(s, p, NotBacktick) == p + |g|
  {
    forall g | QuotedText(s, p, g)
      ensures RunEnd(s, p, NotBacktick) == p + |g|
    {
      forall j | p <= j < p + |g|
        ensures NotBacktick(s[j])
      {
        assert s[j] == s[p..p + |g|][j - p];
      }
      RunEndAt(s, p, p + |g|, NotBacktick);
    }
  }

  /** `<prefix>([^`]+)` followed by a backtick, tried at `i`. */
  function QuotedAt(s: string, i: nat, prefix: string): (r: Option<string>)
    ensures r.Some? <==> QuotedAfter(s, i, prefix)
    ensures r.Some? ==> QuotedText(s, i + |prefix|, r.value)
  {
    var p := i + |prefix|;
    if OccursAt(s, i, prefix) then
      var q := RunEnd(s, p, NotBacktick);
      QuotedTextEnds(s, p);
      if q < |s| && q > p then
        assert QuotedText(s, p, s[p..q]);
        Some(s[p..q])
      else None
    else None
  }

  function ScheduleMatcher(day: string): Matcher {
    (s: string, i: nat) => ScheduleAt(s, i, day)
  }

  function StatsRowMatcher(day: string): Matcher {
    (s: string, i: nat) => StatsRowAt(s, i, day)
  }

  function RunMatcher(prefix: string, cls: char -> bool): Matcher {
    (s: string, i: nat) => PrefixedRunAt(s, i, prefix, cls)
  }

  function QuotedMatcher(prefix: string): Matcher {
    (s: string, i: nat) => QuotedAt(s, i, prefix)
  }

  const WorkspaceLabel: string := "Workspace ID**: "

  const PatternLabel: string := "Common structure: `"

  /** What `Search` with the run matcher finds, in terms of the labelled positions. */
  lemma RunSearch(s: string, prefix: string, cls: char -> bool)
    ensures var r := Search(s, 0, RunMatcher(prefix, cls));
      && (r.None? ==> forall i: nat :: !LabelledRunAt(s, i, prefix, cls))
      && (r.Some? ==> FirstLabelledRun(s, r.value.pos, prefix, cls))
      && (r.Some? ==> MaximalRun(s, r.value.pos + |prefix|, r.value.group, cls))
  {
    var r := Search(s, 0, RunMatcher(prefix, cls));
    forall i: nat | LabelledRunAt(s, i, prefix, cls)
      ensures i <= |s| && RunMatcher(prefix, cls)(s, i).Some?
    {
    }
    if r.Some? {
      assert PrefixedRunAt(s, r.value.pos, prefix, cls) == Some(r.value.group);
    }
  }

  /** What `Search` with the quoted-text matcher finds, in terms of the positions where it can match. */
  lemma QuotedSearch(s: string, prefix: string)
    ensures var r := Search(s, 0, QuotedMatcher(prefix));
      && (r.None? ==> forall i: nat :: !QuotedAfter(s, i, prefix))
      && (r.Some? ==> QuotedAfter(s, r.value.pos, prefix) && QuotedText(s, r.value.pos + |prefix|, r.value.group))
      && (r.Some? ==> forall j: nat :: j < r.value.pos ==> !QuotedAfter(s, j, prefix))
  {
    var r := Search(s, 0, QuotedMatcher(prefix));
    forall i: nat | QuotedAfter(s, i, prefix)
      ensures i <= |s| && QuotedMatcher(prefix)(s, i).Some?
    {
    }
    if r.Some? {
      assert QuotedAt(s, r.value.pos, prefix) == Some(r.value.group);
    }
  }

  /** The group of `re.search(<prefix>(<cls>+), s)`: the run after the leftmost labelled position. */
  function FirstRun(s: string, prefix: string, cls: char -> bool): (r: Option<string>)
    ensures r.None? <==> forall i: nat :: !LabelledRunAt(s, i, prefix, cls)
    ensures r.Some? ==> exists i: nat :: FirstLabelledRun(s, i, prefix, cls) && MaximalRun(s, i + |prefix|, r.value, cls)
    ensures r.Some? ==> r.value != [] && forall k :: 0 <= k < |r.value| ==> cls(r.value[k])
  {
    RunSearch(s, prefix, cls);
    match Search(s, 0, RunMatcher(prefix, cls))
    case Some(f) => Some(f.group)
    case None => None
  }

  /** The digit run after the first "Workspace ID**: " followed by a digit, or "Unknown". */
  function WorkspaceId(content: string): (r: string)
    ensures r == "Unknown" <==> forall i: nat :: !LabelledRunAt(content, i, WorkspaceLabel, IsDigit)
    ensures r != "Unknown" ==> exists i: nat ::
      FirstLabelledRun(content, i, WorkspaceLabel, IsDigit) && MaximalRun(content, i + |WorkspaceLabel|, r, IsDigit)
  {
    match FirstRun(content, WorkspaceLabel, IsDigit)
    case Some(g) =>
      assert !IsDigit("Unknown"[0]) && IsDigit(g[0]);
      g
    case None => "Unknown"
  }

  /** The back-quoted text after the first "Common structure: `" that is closed, or the empty string. */
  function FilenamePattern(content: string): (r: string)
    ensures r == [] <==> forall i: nat :: !QuotedAfter(content, i, PatternLabel)
    ensures r != [] ==> exists i: nat ::
      && QuotedAfter(content, i, PatternLabel)
      && (forall j: nat :: j < i ==> !QuotedAfter(content, j, PatternLabel))
      && QuotedText(content, i + |PatternLabel|, r)
  {
    QuotedSearch(content, PatternLabel);
    match Search(content, 0, QuotedMatcher(PatternLabel))
    case Some(f) => f.group
    case None => ""
  }

  /** The time in the first schedule row for `day`, if any row matches. */
  function ScheduleTime(content: string, day: string): Option<string> {
    match Search(content, 0, ScheduleMatcher(day))
    case Some(f) => Some(f.group)
    case None => None
  }

  /** The statistics cell of the first row for `day`, if any row matches. */
  function StatsCell(content: string, day: string): Option<string> {
    match Search(content, 0, StatsRowMatcher(day))
    case Some(f) => Some(f.group)
    case None => None
  }

  /**
    For a day token, the schedule time is the time of the leftmost schedule row for
    that day, and there is none exactly when no row matches.
  */
  lemma ScheduleTimeIsFirstRow(content: string, day: string)
    requires DayToken(day)
    ensures ScheduleTime(content, day).None? <==> forall i: nat, t :: !ScheduleRow(content, i, day, t)
    ensures ScheduleTime(content, day).Some? ==> exists i: nat ::
      && ScheduleRow(content, i, day, ScheduleTime(content, day).value)
      && forall j: nat, u :: j < i ==> !ScheduleRow(content, j, day, u)
  {
    forall j: nat, u | ScheduleRow(content, j, day, u)
      ensures j <= |content| && ScheduleMatcher(day)(content, j) == Some(u)
    {
      RowIsScheduleAt(content, j, day, u);
    }
    match Search(content, 0, ScheduleMatcher(day))
    case None =>
    case Some(f) =>
      assert ScheduleAt(content, f.pos, day) == Some(f.group);
  }

  /**
    For a day token, the statistics cell is the cell of the leftmost statistics row
    for that day, and there is none exactly when no row matches.
  */
  lemma StatsCellIsFirstRow(content: string, day: string)
    requires DayToken(day)
    ensures StatsCell(content, day).None? <==> forall i: nat, g :: !StatsRow(content, i, day, g)
    ensures StatsCell(content, day).Some? ==> exists i: nat ::
      && StatsRow(content, i, day, StatsCell(content, day).value)
      && forall j: nat, u :: j < i ==> !StatsRow(content, j, day, u)
  {
    forall j: nat, u | StatsRow(content, j, day, u)
      ensures j <= |content| && StatsRowMatcher(day)(content, j) == Some(u)
    {
      RowIsStatsRowAt(content, j, day, u);
    }
    match Search(content, 0, StatsRowMatcher(day))
    case None =>
    case Some(f) =>
      assert StatsRowAt(content, f.pos, day) == Some(f.group);
  }

  /** Every schedule time is exactly two digits, a colon and two digits. */
  lemma {:induction false} ScheduleTimeIsClockTime(content: string, day: string)
    requires ScheduleTime(content, day).Some?
    ensures IsClockTime(ScheduleTime(content, day).value)
  {
    var f := Search(content, 0, ScheduleMatcher(day)).value;
    assert ScheduleAt(content, f.pos, day) == Some(f.group);
  }

  /**
    In a schedule row, the `[^|]+` run that starts at the time reaches exactly the bar
    that closes the time cell.
  */
  lemma ClockCellIsNotBarRun(s: string, p: nat)
    requires p + 5 <= |s| && IsClockTime(s[p..p + 5])
    requires RunEnd(s, p + 5, IsSpace) < |s| && s[RunEnd(s, p + 5, IsSpace)] == '|'
    ensures RunEnd(s, p, NotBar) == RunEnd(s, p + 5, IsSpace)
  {
    var q := RunEnd(s, p + 5, IsSpace);
    var t := s[p..p + 5];
    forall m | p <= m < q
      ensures NotBar(s[m])
    {
      if m < p + 5 {
        assert s[m] == t[m - p];
      } else {
        assert IsSpace(s[m]);
      }
    }
    RunEndAt(s, p, q, NotBar);
  }

  /** Wherever the schedule pattern matches, the statistics pattern matches too. */
  lemma {:induction false} ScheduleRowIsStatsRow(s: string, i: nat, day: string)
    requires ScheduleAt(s, i, day).Some?
    ensures StatsRowAt(s, i, day).Some?
  {
    var j := DayCellEnd(s, i, day).value;
    assert ClockCell(s, j).Some? by {
      ScheduleAtIsClockCell(s, i, day, j);
    }
    var p := RunEnd(s, j, IsSpace);
    var q := RunEnd(s, p + 5, IsSpace);
    assert p + 5 <= |s| && IsClockTime(s[p..p + 5]) && q < |s| && s[q] == '|';
    ClockCellIsNotBarRun(s, p);
    StatsRowAtFrom(s, i, day, j, p, q);
  }

  /** A day with a schedule time always has a statistics cell: the schedule row is one. */
  lemma {:induction false} ScheduledDayHasStatsCell(content: string, day: string)
    requires ScheduleTime(content, day).Some?
    ensures StatsCell(content, day).Some?
  {
    var f := Search(content, 0, ScheduleMatcher(day)).value;
    assert ScheduleAt(content, f.pos, day).Some?;
    ScheduleRowIsStatsRow(content, f.pos, day);
    assert StatsRowMatcher(day)(content, f.pos).Some?;
  }

  // ---- numbers in a statistics cell ----

  function DigitValue(c: char): nat
    requires IsDigit(c)
  {
    (c as int - '0' as int) as nat
  }

  /** The value of a string of decimal digits. */
  function DigitsValue(d: string): nat
    requires forall k :: 0 <= k < |d| ==> IsDigit(d[k])
    decreases |d|
  {
    if d == [] then 0 else DigitsValue(d[..|d| - 1]) * 10 + DigitValue(d[|d| - 1])
  }

  /** `w` with `n` zeros written after it: `w * 10^n`. */
  function Shift(w: nat, n: nat): nat {
    if n == 0 then w else Shift(w, n - 1) * 10
  }

  /** `x` divided by ten `n` times: `x / 10^n`. */
  function Tenths(x: real, n: nat): real {
    if n == 0 then x else Tenths(x, n - 1) / 10.0
  }

  /** Digits written after others shift those others up by one decimal place each. */
  lemma {:induction false} DigitsValueAppend(a: string, b: string)
    requires forall k :: 0 <= k < |a| ==> IsDigit(a[k])
    requires forall k :: 0 <= k < |b| ==> IsDigit(b[k])
    ensures forall k :: 0 <= k < |a + b| ==> IsDigit((a + b)[k])
    ensures DigitsValue(a + b) == Shift(DigitsValue(a), |b|) + DigitsValue(b)
    decreases |b|
  {
    if b == [] {
      assert a + b == a;
    } else {
      var b' := b[..|b| - 1];
      assert (a + b)[..|a + b| - 1] == a + b';
      assert (a + b)[|a + b| - 1] == b[|b| - 1];
      DigitsValueAppend(a, b');
    }
  }

  /** Dividing by a power of ten distributes over a sum. */
  lemma {:induction false} TenthsAdd(x: real, y: real, n: nat)
    ensures Tenths(x + y, n) == Tenths(x, n) + Tenths(y, n)
  {
    if n > 0 {
      TenthsAdd(x, y, n - 1);
    }
  }

  /** Dividing by ten `n` times undoes writing `n` zeros. */
  lemma {:induction false} TenthsShift(w: nat, n: nat)
    ensures Tenths(Shift(w, n) as real, n) == w as real
  {
    if n > 0 {
      TenthsTen(Shift(w, n - 1) as real, n - 1);
      TenthsShift(w, n - 1);
    }
  }

  /** Dividing by ten `n + 1` times after multiplying by ten is dividing `n` times. */
  lemma {:induction false} TenthsTen(x: real, n: nat)
    ensures Tenths(x * 10.0, n + 1) == Tenths(x, n)
  {
    if n > 0 {
      TenthsTen(x, n - 1);
    }
  }

  /** A string of digits and dots that `float()` accepts: at most one dot and at least one digit. */
  predicate IsDecimalText(t: string) {
    && (forall i, j :: 0 <= i < j < |t| && t[i] == '.' ==> t[j] != '.')
    && (exists k :: 0 <= k < |t| && IsDigit(t[k]))
  }

  /** The digits of a decimal text whose one dot stands at `k`, with that dot taken out. */
  function Undotted(t: string, k: nat): (d: string)
    requires forall m :: 0 <= m < |t| ==> IsDigit(t[m]) || t[m] == '.'
    requires IsDecimalText(t) && k < |t| && t[k] == '.'
    ensures |d| == |t| - 1
    ensures forall m :: 0 <= m < |d| ==> IsDigit(d[m])
  {
    var d := t[..k] + t[k + 1..];
    assert forall m :: 0 <= m < |d| ==> IsDigit(d[m]) by {
      forall m | 0 <= m < |d|
        ensures IsDigit(d[m])
      {
        if m < k {
          assert d[m] == t[m];
        } else {
          assert d[m] == t[m + 1];
        }
      }
    }
    d
  }

  /** A decimal text has no dot besides the one at `d`. */
  lemma OnlyDot(t: string, d: nat)
    requires forall k :: 0 <= k < |t| ==> IsDigit(t[k]) || t[k] == '.'
    requires IsDecimalText(t) && d < |t| && t[d] == '.'
    ensures forall k :: 0 <= k < |t| && k != d ==> IsDigit(t[k])
  {
    forall k | 0 <= k < |t| && k != d
      ensures IsDigit(t[k])
    {
      if k < d {
        assert t[k] != '.';
      } else {
        assert t[k] != '.';
      }
    }
  }

  /**
    `whole.frac`, with the dot at `d`, is all its digits read as one integer and
    divided by ten once per fraction digit.
  */
  lemma PointedValue(t: string, d: nat)
    requires forall k :: 0 <= k < |t| ==> IsDigit(t[k]) || t[k] == '.'
    requires IsDecimalText(t) && d < |t| && t[d] == '.'
    ensures forall k :: 0 <= k < d ==> IsDigit(t[k])
    ensures forall k :: d < k < |t| ==> IsDigit(t[k])
    ensures forall k :: 0 <= k < |t| && t[k] == '.' ==>
      DigitsValue(t[..d]) as real + Tenths(DigitsValue(t[d + 1..]) as real, |t| - d - 1)
      == Tenths(DigitsValue(Undotted(t, k)) as real, |t| - k - 1)
  {
    OnlyDot(t, d);
    assert Undotted(t, d) == t[..d] + t[d + 1..];
    DotValue(t[..d], t[d + 1..]);
    assert forall k :: 0 <= k < |t| && t[k] == '.' ==> k == d;
  }

  /** The digits before the dot plus the tenths of those after it are the tenths of all of them. */
  lemma DotValue(whole: string, frac: string)
    requires forall k :: 0 <= k < |whole| ==> IsDigit(whole[k])
    requires forall k :: 0 <= k < |frac| ==> IsDigit(frac[k])
    ensures forall k :: 0 <= k < |whole + frac| ==> IsDigit((whole + frac)[k])
    ensures DigitsValue(whole) as real + Tenths(DigitsValue(frac) as real, |frac|)
      == Tenths(DigitsValue(whole + frac) as real, |frac|)
  {
    DigitsValueAppend(whole, frac);
    TenthsOfShiftPlus(DigitsValue(whole), DigitsValue(frac), |frac|);
  }

  /** Dividing `w` shifted by `n` places plus `f` by ten `n` times gives `w` plus the tenths of `f`. */
  lemma TenthsOfShiftPlus(w: nat, f: nat, n: nat)
    ensures Tenths((Shift(w, n) + f) as real, n) == w as real + Tenths(f as real, n)
  {
    TenthsAdd(Shift(w, n) as real, f as real, n);
    TenthsShift(w, n);
  }

  /** Digits around a single dot, at least one of them, make a decimal text. */
  lemma SingleDotIsDecimal(t: string, d: nat)
    requires forall k :: 0 <= k < |t| ==> IsDigit(t[k]) || t[k] == '.'
    requires Find(t, ".", 0) == Some(d) && '.' !in t[d + 1..] && (d > 0 || d + 1 < |t|)
    ensures IsDecimalText(t)
  {
    assert forall k :: 0 <= k < d ==> t[k] != '.' by {
      forall k | 0 <= k < d ensures t[k] != '.' {
        assert !OccursAt(t, k, ".") && t[k..k + 1] == [t[k]];
      }
    }
    var frac := t[d + 1..];
    assert forall k :: 0 <= k < |frac| ==> frac[k] != '.' by {
      forall k | 0 <= k < |frac| ensures frac[k] != '.' {
        assert frac[k] in frac;
      }
    }
    assert d > 0 ==> IsDigit(t[0]);
    assert d + 1 < |t| ==> IsDigit(t[d + 1]) && frac[0] == t[d + 1];
  }

  /**
    `float(t)` for a string of digits and dots, exactly; `None` where Python raises
    `ValueError`. Without a dot the value is the digits' value; with the dot at `k`,
    it is the value of all the digits divided by ten once per digit after the dot.
  */
  function ParseDecimal(t: string): (r: Option<real>)
    requires forall k :: 0 <= k < |t| ==> IsDigit(t[k]) || t[k] == '.'
    ensures r.Some? <==> IsDecimalText(t)
    ensures r.Some? ==> r.value >= 0.0
    ensures r.Some? && '.' !in t ==> r.value == DigitsValue(t) as real
    ensures r.Some? ==> forall k :: 0 <= k < |t| && t[k] == '.' ==>
      r.value == Tenths(DigitsValue(Undotted(t, k)) as real, |t| - k - 1)
  {
    match Find(t, ".", 0)
    case None =>
      assert forall k :: 0 <= k < |t| ==> t[k] != '.' by {
        forall k | 0 <= k < |t| ensures t[k] != '.' {
          assert !OccursAt(t, k, ".") && t[k..k + 1] == [t[k]];
        }
      }
      if t == [] then None else Some(DigitsValue(t) as real)
    case Some(d) =>
      assert t[d..d + 1] == "." && t[d] == '.';
      var whole, frac := t[..d], t[d + 1..];
      if '.' in frac then
        var e :| 0 <= e < |frac| && frac[e] == '.';
        assert t[d + 1 + e] == '.';
        None
      else if whole == [] && frac == [] then
        None
      else
        SingleDotIsDecimal(t, d);
        PointedValue(t, d);
        TenthsNonNegative(DigitsValue(frac) as real, |frac|);
        Some(DigitsValue(whole) as real + Tenths(DigitsValue(frac) as real, |frac|))
  }

  /** Dividing a non-negative number by ten keeps it non-negative. */
  lemma {:induction false} TenthsNonNegative(x: real, n: nat)
    requires x >= 0.0
    ensures Tenths(x, n) >= 0.0
  {
    if n > 0 {
      TenthsNonNegative(x, n - 1);
    }
  }

  /** What one `<Name>: ([\d,.]+)` lookup in a statistics cell produced. */
  datatype Reading = Absent | Number(value: real) | Unconvertible(text: string)

  /** A number token without its commas is made of digits and dots. */
  lemma WithoutCommas(token: string)
    requires forall k :: 0 <= k < |token| ==> IsNumberChar(token[k])
    ensures forall k :: 0 <= k < |Without(token, ',')| ==>
      IsDigit(Without(token, ',')[k]) || Without(token, ',')[k] == '.'
  {
    var t := Without(token, ',');
    forall k | 0 <= k < |t|
      ensures IsDigit(t[k]) || t[k] == '.'
    {
      var m :| 0 <= m < |token| && token[m] == t[k];
    }
  }

  /** `reading` is what `float(token.replace(",", ""))` gives for a number token: its value, or the text it rejects. */
  predicate Converted(token: string, reading: Reading) {
    && (forall k :: 0 <= k < |token| ==> IsNumberChar(token[k]))
    && (WithoutCommas(token);
        var t := Without(token, ',');
        match reading
        case Absent => false
        case Number(x) => ParseDecimal(t) == Some(x)
        case Unconvertible(u) => u == t && ParseDecimal(t).None?)
  }

  /** The label that introduces a statistic in a cell: "Mean: ", "Min: ", "Max: ". */
  function StatLabel(name: string): string {
    name + ": "
  }

  /**
    The first `<Name>: ([\d,.]+)` token of a cell, commas removed, converted by `float()`;
    `Absent` exactly when the label never stands before a number character.
  */
  function ReadStat(cell: string, name: string): (r: Reading)
    ensures r.Absent? <==> forall i: nat :: !LabelledRunAt(cell, i, StatLabel(name), IsNumberChar)
    ensures !r.Absent? ==> exists i: nat, g ::
      && FirstLabelledRun(cell, i, StatLabel(name), IsNumberChar)
      && MaximalRun(cell, i + |StatLabel(name)|, g, IsNumberChar)
      && Converted(g, r)
    ensures r.Unconvertible? ==> !IsDecimalText(r.text) && ',' !in r.text
  {
    match FirstRun(cell, StatLabel(name), IsNumberChar)
    case None => Absent
    case Some(g) =>
      WithoutCommas(g);
      var cleaned := Without(g, ',');
      var r := match ParseDecimal(cleaned)
        case Some(x) => Number(x)
        case None => Unconvertible(cleaned);
      assert Converted(g, r);
      r
  }

  /** The message of the `ValueError` that `float()` raises for `text`. */
  function FloatError(text: string): PyError {
    ValueError("could not convert string to float: '" + text + "'")
  }

  /** One statistic into the map, or the error of its conversion. */
  function AddStat(acc: Outcome<map<string, real>>, key: string, reading: Reading): Outcome<map<string, real>> {
    match acc
    case Raised(e) => acc
    case Returned(m) =>
      match reading
      case Absent => acc
      case Number(x) => Returned(m[key := x])
      case Unconvertible(t) => Raised(FloatError(t))
  }

  /**
    The statistics map of one day's cell: "mean", "min" and "max" in that order, each
    present only when its name occurs; the first unconvertible number raises.
  */
  function CellStats(cell: string): (r: Outcome<map<string, real>>)
    ensures r.Returned? ==> r.value.Keys <= {"mean", "min", "max"}
    ensures r.Returned? <==>
      (!ReadStat(cell, "Mean").Unconvertible? && !ReadStat(cell, "Min").Unconvertible?
       && !ReadStat(cell, "Max").Unconvertible?)
    ensures r.Returned? ==> ("mean" in r.value <==> ReadStat(cell, "Mean").Number?)
    ensures r.Returned? ==> ("min" in r.value <==> ReadStat(cell, "Min").Number?)
    ensures r.Returned? ==> ("max" in r.value <==> ReadStat(cell, "Max").Number?)
    ensures r.Returned? && "mean" in r.value ==> r.value["mean"] == ReadStat(cell, "Mean").value
    ensures r.Returned? && "min" in r.value ==> r.value["min"] == ReadStat(cell, "Min").value
    ensures r.Returned? && "max" in r.value ==> r.value["max"] == ReadStat(cell, "Max").value
    ensures ReadStat(cell, "Mean").Unconvertible? ==> r == Raised(FloatError(ReadStat(cell, "Mean").text))
    ensures !ReadStat(cell, "Mean").Unconvertible? && ReadStat(cell, "Min").Unconvertible? ==>
      r == Raised(FloatError(ReadStat(cell, "Min").text))
    ensures (!ReadStat(cell, "Mean").Unconvertible? && !ReadStat(cell, "Min").Unconvertible?
             && ReadStat(cell, "Max").Unconvertible?) ==> r == Raised(FloatError(ReadStat(cell, "Max").text))
  {
    var withMean := AddStat(Returned(map[]), "mean", ReadStat(cell, "Mean"));
    var withMin := AddStat(withMean, "min", ReadStat(cell, "Min"));
    AddStat(withMin, "max", ReadStat(cell, "Max"))
  }

  /** A number with more than one dot is rejected by `float()`. */
  lemma TwoDotsAreNotDecimal()
    ensures ParseDecimal("1.2.3") == None && ',' !in "1.2.3"
  {
    var t := "1.2.3";
    assert t[1] == '.' && t[3] == '.';
  }

  lemma MeanTokenOfSample()
    ensures FirstRun("Mean: 1.2.3", StatLabel("Mean"), IsNumberChar) == Some("1.2.3")
  {
    var s := "Mean: 1.2.3";
    assert StatLabel("Mean") == "Mean: ";
    assert OccursAt(s, 0, "Mean: ");
    assert RunEnd(s, 11, IsNumberChar) == 11;
    assert RunEnd(s, 10, IsNumberChar) == 11;
    assert RunEnd(s, 9, IsNumberChar) == 11;
    assert RunEnd(s, 8, IsNumberChar) == 11;
    assert RunEnd(s, 7, IsNumberChar) == 11;
    assert RunEnd(s, 6, IsNumberChar) == 11;
    assert s[6..11] == "1.2.3";
    assert PrefixedRunAt(s, 0, "Mean: ", IsNumberChar) == Some("1.2.3");
    assert RunMatcher("Mean: ", IsNumberChar)(s, 0) == Some("1.2.3");
  }

  /** A cell whose mean reads "1.2.3" makes the whole parse raise `ValueError`. */
  lemma TwoDotsRaise()
    ensures CellStats("Mean: 1.2.3").Raised?
  {
    SampleMeanIsUnconvertible();
  }

  lemma SampleMeanIsUnconvertible()
    ensures ReadStat("Mean: 1.2.3", "Mean") == Unconvertible("1.2.3")
  {
    MeanTokenOfSample();
    TwoDotsAreNotDecimal();
    UnconvertibleToken("Mean: 1.2.3", "Mean", "1.2.3");
  }

  /** A first token without commas that is not a decimal is read as unconvertible, as it stands. */
  lemma UnconvertibleToken(cell: string, name: string, g: string)
    requires FirstRun(cell, StatLabel(name), IsNumberChar) == Some(g)
    requires ',' !in g && ParseDecimal(g).None?
    ensures ReadStat(cell, name) == Unconvertible(g)
  {
    WithoutAbsent(g, ',');
  }
}
