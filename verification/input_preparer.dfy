/**
  Loading of one run date's inputs: the per-source file lists (today's and last
  week's) and the per-source behaviour summaries. The file system is a map from
  path to content (a path is present exactly when the file exists); `json.load`
  and the `FileData` validation are supplied as their results.
*/
module InputPrep {
  import opened Outcomes
  import opened Models
  import opened CvScan

  /**
    A Python dict read from JSON: its entries in insertion order. A decoded JSON object
    has no repeated key, but the type does not exclude one; `DictGet` then takes the first.
  */
  type Dict<V> = seq<(string, V)>

  /** `d.get(key)` */
  function DictGet<V>(d: Dict<V>, key: string): Option<V>
    decreases |d|
  {
    if d == [] then None else if d[0].0 == key then Some(d[0].1) else DictGet(d[1..], key)
  }

  /** The weekdays, in the order the parser visits them. */
  const Days: seq<string> := ["Mon", "Tue", "Wed", "Thu", "Fri", "Sat", "Sun"]

  /** `posixpath.join(a, b)`: an absolute `b` replaces `a`; otherwise one separator between them. */
  function PathJoin(a: string, b: string): (r: string)
    ensures |b| > 0 && b[0] == '/' ==> r == b
    ensures !(|b| > 0 && b[0] == '/') ==> a <= r && |r| >= |b| && r[|r| - |b|..] == b && |r| <= |a| + 1 + |b|
    ensures !(|b| > 0 && b[0] == '/') ==> |a| + |b| <= |r| && r[|a|..|r| - |b|] in {"", "/"}
    ensures !(|b| > 0 && b[0] == '/') ==> (|r| == |a| + |b| <==> a == [] || a[|a| - 1] == '/')
    ensures !(|b| > 0 && b[0] == '/') && a != [] ==> r[|r| - |b| - 1] == '/'
  {
    if |b| > 0 && b[0] == '/' then b
    else if a == [] || a[|a| - 1] == '/' then
      assert (a + b)[|a|..|a|] == "";
      a + b
    else
      assert (a + "/" + b)[|a|..|a| + 1] == "/";
      a + "/" + b
  }

  lemma JoinPlain(a: string, b: string)
    requires a != [] && a[|a| - 1] != '/'
    requires b != [] && b[0] != '/'
    ensures PathJoin(a, b) == a + "/" + b
  {
  }

  lemma JoinAfter(a: string, suffix: string, b: string)
    requires suffix != [] && suffix[|suffix| - 1] != '/'
    requires b != [] && b[0] != '/'
    ensures PathJoin(a + suffix, b) == a + suffix + "/" + b
  {
    assert (a + suffix)[|a + suffix| - 1] == suffix[|suffix| - 1];
  }

  /** The items that validate as `FileData`, in their original order; the others are dropped. */
  function ValidItems<T>(items: seq<T>, validate: T -> Option<FileData>): (r: seq<FileData>)
    ensures |r| <= |items|
    ensures (forall i :: 0 <= i < |items| ==> validate(items[i]).Some?) ==> |r| == |items|
    decreases |items|
  {
    if items == [] then []
    else
      var last := items[|items| - 1];
      ValidItems(items[..|items| - 1], validate) + (if validate(last).Some? then [validate(last).value] else [])
  }

  /** `parsed` has the keys of `raw` in the same order, each with the valid items of its list. */
  ghost predicate ParsedFrom<T>(parsed: Dict<seq<FileData>>, raw: Dict<seq<T>>, validate: T -> Option<FileData>) {
    && |parsed| == |raw|
    && forall i :: 0 <= i < |raw| ==> parsed[i].0 == raw[i].0 && parsed[i].1 == ValidItems(raw[i].1, validate)
  }

  /** Filtering splits over concatenation, so the kept items keep their relative order. */
  lemma {:induction false} ValidItemsAppend<T>(a: seq<T>, b: seq<T>, validate: T -> Option<FileData>)
    ensures ValidItems(a + b, validate) == ValidItems(a, validate) + ValidItems(b, validate)
    decreases |b|
  {
    if b == [] {
      assert a + b == a;
    } else {
      var b' := b[..|b| - 1];
      assert (a + b)[..|a + b| - 1] == a + b';
      assert (a + b)[|a + b| - 1] == b[|b| - 1];
      ValidItemsAppend(a, b', validate);
    }
  }

  /** Every kept item is the validation of some input item, and nothing is invented. */
  lemma {:induction false} ValidItemsFromInput<T>(items: seq<T>, validate: T -> Option<FileData>)
    ensures |ValidItems(items, validate)| <= |items|
    ensures forall f :: f in ValidItems(items, validate) ==> exists x :: x in items && validate(x) == Some(f)
    decreases |items|
  {
    if items != [] {
      var init := items[..|items| - 1];
      ValidItemsFromInput(init, validate);
      forall f | f in ValidItems(items, validate)
        ensures exists x :: x in items && validate(x) == Some(f)
      {
        if f in ValidItems(init, validate) {
          var x :| x in init && validate(x) == Some(f);
          assert x in items;
        } else {
          assert items[|items| - 1] in items;
        }
      }
    }
  }

  /** When every item validates, nothing is dropped and the order is kept item by item. */
  lemma {:induction false} AllValidKeepsAll<T>(items: seq<T>, validate: T -> Option<FileData>)
    requires forall k :: 0 <= k < |items| ==> validate(items[k]).Some?
    ensures |ValidItems(items, validate)| == |items|
    ensures forall k :: 0 <= k < |items| ==> ValidItems(items, validate)[k] == validate(items[k]).value
    decreases |items|
  {
    if items != [] {
      AllValidKeepsAll(items[..|items| - 1], validate);
    }
  }

  /** The nested loops shared by both loaders: validate each item of each source's list. */
  method ParseEntries<T>(raw: Dict<seq<T>>, validate: T -> Option<FileData>) returns (parsed: Dict<seq<FileData>>)
    ensures ParsedFrom(parsed, raw, validate)
  {
    parsed := [];
    var i := 0;
    while i < |raw|
      invariant 0 <= i <= |raw|
      invariant ParsedFrom(parsed, raw[..i], validate)
    {
      var (sourceId, files) := raw[i];
      var parsedFiles: seq<FileData> := [];
      var j := 0;
      while j < |files|
        invariant 0 <= j <= |files|
        invariant parsedFiles == ValidItems(files[..j], validate)
      {
        assert files[..j + 1][..j] == files[..j];
        var item := validate(files[j]);
        if item.Some? {
          parsedFiles := parsedFiles + [item.value];
        }
        j := j + 1;
      }
      assert files[..j] == files;
      parsed := parsed + [(sourceId, parsedFiles)];
      i := i + 1;
    }
    assert raw[..i] == raw;
  }

  /** The statistics of `day`'s first row, if a row matches: a map, or the conversion error. */
  function DayStats(content: string, day: string): Option<Outcome<map<string, real>>> {
    match StatsCell(content, day)
    case None => None
    case Some(cell) => Some(CellStats(cell))
  }

  /** A day's statistics lookup found a row whose conversion raised. */
  predicate Fails(stats: Option<Outcome<map<string, real>>>) {
    stats.Some? && stats.value.Raised?
  }

  /** The statistics conversion for `day` raises. */
  predicate StatsFail(content: string, day: string) {
    Fails(DayStats(content, day))
  }

  /** `cv` is what the parser extracts from `content` for `sourceId`. */
  ghost predicate ExtractedFrom(cv: SourceCV, sourceId: string, content: string) {
    && cv.resourceId == sourceId
    && cv.workspaceId == WorkspaceId(content)
    && cv.filenamePattern == FilenamePattern(content)
    && (forall d :: d in cv.uploadSchedule <==> d in Days && ScheduleTime(content, d).Some?)
    && (forall d :: d in cv.uploadSchedule ==> ScheduleTime(content, d) == Some(cv.uploadSchedule[d]))
    && (forall d :: d in cv.volumeStats <==> d in Days && StatsCell(content, d).Some?)
    && (forall d :: d in cv.volumeStats ==> DayStats(content, d) == Some(Returned(cv.volumeStats[d])))
  }

  /**
    What an extracted summary guarantees: weekday keys only, `HH:MM` times, every
    scheduled day also has statistics, and statistics keyed by mean/min/max only.
  */
  lemma {:induction false} ExtractedSummaryShape(cv: SourceCV, sourceId: string, content: string)
    requires ExtractedFrom(cv, sourceId, content)
    ensures cv.uploadSchedule.Keys <= cv.volumeStats.Keys
    ensures forall d :: d in cv.volumeStats ==> d in Days
    ensures forall d :: d in cv.uploadSchedule ==> IsClockTime(cv.uploadSchedule[d])
    ensures forall d :: d in cv.volumeStats ==> cv.volumeStats[d].Keys <= {"mean", "min", "max"}
  {
    forall d | d in cv.uploadSchedule
      ensures d in cv.volumeStats && IsClockTime(cv.uploadSchedule[d])
    {
      ScheduledDayHasStatsCell(content, d);
      ScheduleTimeIsClockTime(content, d);
    }
  }

  /** A day whose rows do not match has no entry at all: it is never defaulted. */
  lemma {:induction false} UnmatchedDayIsAbsent(cv: SourceCV, sourceId: string, content: string, d: string)
    requires ExtractedFrom(cv, sourceId, content)
    requires StatsCell(content, d).None?
    ensures d !in cv.uploadSchedule && d !in cv.volumeStats
  {
    if d in cv.uploadSchedule {
      ScheduledDayHasStatsCell(content, d);
    }
  }

  /** The schedule loop of `parse_cv`: one entry per day whose schedule row matches. */
  method ExtractSchedule(content: string, days: seq<string>) returns (uploadSchedule: map<string, string>)
    ensures forall d :: d in uploadSchedule <==> d in days && ScheduleTime(content, d).Some?
    ensures forall d :: d in uploadSchedule ==> ScheduleTime(content, d) == Some(uploadSchedule[d])
  {
    uploadSchedule := map[];
    var i := 0;
    while i < |days|
      invariant 0 <= i <= |days|
      invariant forall d :: d in uploadSchedule <==> d in days[..i] && ScheduleTime(content, d).Some?
      invariant forall d :: d in uploadSchedule ==> ScheduleTime(content, d) == Some(uploadSchedule[d])
    {
      assert days[..i + 1] == days[..i] + [days[i]];
      var time := ScheduleTime(content, days[i]);
      if time.Some? {
        uploadSchedule := uploadSchedule[days[i] := time.value];
      }
      i := i + 1;
    }
    assert days[..i] == days;
  }

  /**
    The statistics loop of `parse_cv`, over the per-day lookup `dayStats` (the row
    search and the three number conversions): one entry per day whose row matches,
    or the first conversion error.
  */
  method ExtractVolumeStats(days: seq<string>, dayStats: string -> Option<Outcome<map<string, real>>>)
    returns (r: Outcome<map<string, map<string, real>>>)
    ensures r.Raised? <==> exists k :: 0 <= k < |days| && Fails(dayStats(days[k]))
    ensures r.Raised? ==> exists k ::
      && 0 <= k < |days| && Fails(dayStats(days[k]))
      && (forall j :: 0 <= j < k ==> !Fails(dayStats(days[j])))
      && r.error == dayStats(days[k]).value.error
    ensures r.Returned? ==> forall d :: d in r.value <==> d in days && dayStats(d).Some?
    ensures r.Returned? ==> forall d :: d in r.value ==> dayStats(d) == Some(Returned(r.value[d]))
  {
    var volumeStats: map<string, map<string, real>> := map[];
    var i := 0;
    while i < |days|
      invariant 0 <= i <= |days|
      invariant forall d :: d in days[..i] ==> !Fails(dayStats(d))
      invariant forall d :: d in volumeStats <==> d in days[..i] && dayStats(d).Some?
      invariant forall d :: d in volumeStats ==> dayStats(d) == Some(Returned(volumeStats[d]))
    {
      assert days[..i + 1] == days[..i] + [days[i]];
      var stats := dayStats(days[i]);
      if stats.Some? {
        if stats.value.Raised? {
          assert forall j :: 0 <= j < i ==> days[j] in days[..i];
          return Raised(stats.value.error);
        }
        volumeStats := volumeStats[days[i] := stats.value.value];
      }
      i := i + 1;
    }
    assert days[..i] == days;
    return Returned(volumeStats);
  }

  class InputPreparer {
    const dataDir: string
    const cvDir: string

    constructor (dataDir: string)
      ensures this.dataDir == dataDir
      ensures cvDir == PathJoin(PathJoin(dataDir, "Files"), "datasource_cvs")
    {
      this.dataDir := dataDir;
      cvDir := PathJoin(PathJoin(dataDir, "Files"), "datasource_cvs");
    }

    /** The directory of one run date: `<data_dir>/Files/<date>_20_00_UTC`. */
    function DateDir(dateStr: string): string {
      PathJoin(PathJoin(dataDir, "Files"), dateStr + "_20_00_UTC")
    }

    function FilesPath(dateStr: string): string {
      PathJoin(DateDir(dateStr), "files.json")
    }

    function LastWeekdayPath(dateStr: string): string {
      PathJoin(DateDir(dateStr), "files_last_weekday.json")
    }

    function CvPath(sourceId: string): string {
      PathJoin(cvDir, sourceId + "_native.md")
    }

    /** For a relative date and a plain data directory, the two paths are the expected literal layout. */
    lemma {:induction false} DateDirLayout(dateStr: string)
      requires dataDir != [] && dataDir[|dataDir| - 1] != '/'
      requires dateStr == [] || dateStr[0] != '/'
      ensures DateDir(dateStr) == dataDir + "/Files/" + dateStr + "_20_00_UTC"
    {
      var dir := dateStr + "_20_00_UTC";
      assert dir[0] != '/' by {
        if dateStr == [] { assert dir == "_20_00_UTC"; }
        else { assert dir[0] == dateStr[0]; }
      }
      var files := dataDir + "/Files";
      assert PathJoin(dataDir, "Files") == files by {
        JoinPlain(dataDir, "Files");
      }
      assert PathJoin(files, dir) == files + "/" + dir by {
        assert files[|files| - 1] == 's';
        JoinPlain(files, dir);
      }
      DateDirText(dataDir, dateStr);
    }

    /** The two joins spelled out as one text. */
    static lemma DateDirText(d: string, dateStr: string)
      ensures (d + "/Files") + "/" + (dateStr + "_20_00_UTC") == d + "/Files/" + dateStr + "_20_00_UTC"
    {
      assert "/Files" + "/" == "/Files/";
    }

    lemma {:induction false} DataPathsLayout(dateStr: string)
      requires dataDir != [] && dataDir[|dataDir| - 1] != '/'
      requires dateStr == [] || dateStr[0] != '/'
      ensures FilesPath(dateStr) == dataDir + "/Files/" + dateStr + "_20_00_UTC" + "/" + "files.json"
      ensures LastWeekdayPath(dateStr) == dataDir + "/Files/" + dateStr + "_20_00_UTC" + "/" + "files_last_weekday.json"
    {
      DateDirLayout(dateStr);
      JoinAfter(dataDir + "/Files/" + dateStr, "_20_00_UTC", "files.json");
      JoinAfter(dataDir + "/Files/" + dateStr, "_20_00_UTC", "files_last_weekday.json");
    }

    /** `load_files_data`: a missing `files.json` raises `FileNotFoundError`. */
    method LoadFilesData<T>(dateStr: string, fs: map<string, Dict<seq<T>>>, validate: T -> Option<FileData>)
      returns (r: Outcome<Dict<seq<FileData>>>)
      ensures FilesPath(dateStr) !in fs ==>
        r == Raised(FileNotFoundError("Files data not found for " + dateStr + " at " + FilesPath(dateStr)))
      ensures FilesPath(dateStr) in fs ==>
        r.Returned? && ParsedFrom(r.value, fs[FilesPath(dateStr)], validate)
    {
      var path := FilesPath(dateStr);
      if path !in fs {
        return Raised(FileNotFoundError("Files data not found for " + dateStr + " at " + path));
      }
      var parsed := ParseEntries(fs[path], validate);
      return Returned(parsed);
    }

    /** `load_last_weekday_files`: a missing file yields an empty dict, not an error. */
    method LoadLastWeekdayFiles<T>(dateStr: string, fs: map<string, Dict<seq<T>>>, validate: T -> Option<FileData>)
      returns (parsed: Dict<seq<FileData>>)
      ensures LastWeekdayPath(dateStr) !in fs ==> parsed == []
      ensures LastWeekdayPath(dateStr) in fs ==> ParsedFrom(parsed, fs[LastWeekdayPath(dateStr)], validate)
    {
      var path := LastWeekdayPath(dateStr);
      if path !in fs {
        return [];
      }
      parsed := ParseEntries(fs[path], validate);
    }

    /**
      `parse_cv`: `None` when the summary file is missing; otherwise the extracted
      summary, unless some weekday's statistics hold a number `float()` rejects, in
      which case the first such `ValueError` (Mon to Sun; mean, min, max) escapes.
    */
    method ParseCv(sourceId: string, cvFiles: map<string, string>) returns (r: Outcome<Option<SourceCV>>)
      ensures CvPath(sourceId) !in cvFiles ==> r == Returned(None)
      ensures CvPath(sourceId) in cvFiles ==>
        var content := cvFiles[CvPath(sourceId)];
        && (r.Raised? <==> exists k :: 0 <= k < |Days| && StatsFail(content, Days[k]))
        && (r.Raised? ==> exists k ::
              && 0 <= k < |Days| && StatsFail(content, Days[k])
              && (forall j :: 0 <= j < k ==> !StatsFail(content, Days[j]))
              && r.error == DayStats(content, Days[k]).value.error)
        && (r.Returned? ==> r.value.Some? && ExtractedFrom(r.value.value, sourceId, content))
    {
      var path := CvPath(sourceId);
      if path !in cvFiles {
        return Returned(None);
      }
      var content := cvFiles[path];
      var workspaceId := WorkspaceId(content);
      var filenamePattern := FilenamePattern(content);

      var uploadSchedule := ExtractSchedule(content, Days);
      var volumeStats := ExtractVolumeStats(Days, d => DayStats(content, d));
      if volumeStats.Raised? {
        return Raised(volumeStats.error);
      }
      return Returned(Some(SourceCV(sourceId, workspaceId, filenamePattern, uploadSchedule, volumeStats.value)));
    }
  }
}
