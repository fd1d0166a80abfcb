/**
  Which sources `generate_global_report` analyses, and with what context. Both
  agents share this loop word for word: every entry of today's files, in order,
  whose source has a behaviour summary; each analysed with a copy of the run
  context whose last-week files are that source's entry (or none).
*/
module GlobalFold {
  import opened Outcomes
  import opened Models
  import opened InputPrep
  import opened AgentCommon

  /** One analysis the global report runs: a source, today's files for it and its summary. */
  datatype Job = Job(sourceId: string, files: seq<FileData>, cv: SourceCV)

  /** The entries of `filesData` whose source has a summary, in `filesData`'s order. */
  function Selected(filesData: Dict<seq<FileData>>, cvs: map<string, SourceCV>): (r: seq<Job>)
    ensures |r| <= |filesData|
    decreases |filesData|
  {
    if filesData == [] then []
    else
      var init := Selected(filesData[..|filesData| - 1], cvs);
      var (sourceId, files) := filesData[|filesData| - 1];
      if sourceId in cvs then init + [Job(sourceId, files, cvs[sourceId])] else init
  }

  /** The copy of the run context handed to one source's analysis. */
  function SourceContext(ctx: Context, lastWeek: Dict<seq<FileData>>, sourceId: string): (r: Context)
    ensures r.date == ctx.date && r.lastWeekFiles.Some?
    ensures DictGet(lastWeek, sourceId).Some? ==> r.lastWeekFiles.value == DictGet(lastWeek, sourceId).value
    ensures DictGet(lastWeek, sourceId).None? ==> r.lastWeekFiles.value == []
  {
    ctx.(lastWeekFiles := Some(DictGet(lastWeek, sourceId).GetOr([])))
  }

  /** The reports of a list of jobs, one per job and in order, each given by `report`. */
  function MapJobs(jobs: seq<Job>, report: Job -> SourceReport): (r: seq<SourceReport>)
    ensures |r| == |jobs|
    ensures forall k :: 0 <= k < |jobs| ==> r[k] == report(jobs[k])
  {
    if jobs == [] then [] else MapJobs(jobs[..|jobs| - 1], report) + [report(jobs[|jobs| - 1])]
  }

  /** One more job adds exactly its report at the end. */
  lemma MapJobsAppend(jobs: seq<Job>, job: Job, report: Job -> SourceReport)
    ensures MapJobs(jobs + [job], report) == MapJobs(jobs, report) + [report(job)]
  {
    assert (jobs + [job])[..|jobs|] == jobs;
  }

  /** One more entry of today's files adds its job exactly when its source has a summary. */
  lemma SelectedStep(filesData: Dict<seq<FileData>>, cvs: map<string, SourceCV>, i: nat)
    requires i < |filesData|
    ensures Selected(filesData[..i + 1], cvs) ==
      Selected(filesData[..i], cvs)
      + (if filesData[i].0 in cvs then [Job(filesData[i].0, filesData[i].1, cvs[filesData[i].0])] else [])
  {
    assert filesData[..i + 1][..i] == filesData[..i];
  }

  /** One more entry of today's files adds the report of its job exactly when its source has a summary. */
  lemma ReportsStep(filesData: Dict<seq<FileData>>, cvs: map<string, SourceCV>, i: nat, report: Job -> SourceReport)
    requires i < |filesData|
    ensures MapJobs(Selected(filesData[..i + 1], cvs), report) ==
      MapJobs(Selected(filesData[..i], cvs), report)
      + (if filesData[i].0 in cvs then [report(Job(filesData[i].0, filesData[i].1, cvs[filesData[i].0]))] else [])
  {
    SelectedStep(filesData, cvs, i);
    if filesData[i].0 in cvs {
      MapJobsAppend(Selected(filesData[..i], cvs), Job(filesData[i].0, filesData[i].1, cvs[filesData[i].0]), report);
    }
  }

  /** The selection of a concatenation is the concatenation of the selections: the order of sources is kept. */
  lemma {:induction false} SelectedAppend(a: Dict<seq<FileData>>, b: Dict<seq<FileData>>, cvs: map<string, SourceCV>)
    ensures Selected(a + b, cvs) == Selected(a, cvs) + Selected(b, cvs)
    decreases |b|
  {
    if b == [] {
      assert a + b == a;
    } else {
      var b' := b[..|b| - 1];
      assert (a + b)[..|a + b| - 1] == a + b';
      SelectedAppend(a, b', cvs);
    }
  }

  /** Every analysed source has a summary, and its job carries that summary and one of its entries' files. */
  lemma {:induction false} SelectedSound(filesData: Dict<seq<FileData>>, cvs: map<string, SourceCV>)
    ensures forall job :: job in Selected(filesData, cvs) ==>
      && job.sourceId in cvs && job.cv == cvs[job.sourceId]
      && (job.sourceId, job.files) in filesData
    decreases |filesData|
  {
    if filesData != [] {
      var init := filesData[..|filesData| - 1];
      var last := filesData[|filesData| - 1];
      SelectedSound(init, cvs);
      assert forall e :: e in init ==> e in filesData;
      assert last in filesData && (last.0, last.1) == last;
      assert Selected(filesData, cvs) ==
        Selected(init, cvs) + (if last.0 in cvs then [Job(last.0, last.1, cvs[last.0])] else []);
    }
  }

  /** Every entry whose source has a summary is analysed. */
  lemma {:induction false} SelectedComplete(filesData: Dict<seq<FileData>>, cvs: map<string, SourceCV>, k: nat)
    requires k < |filesData| && filesData[k].0 in cvs
    ensures Job(filesData[k].0, filesData[k].1, cvs[filesData[k].0]) in Selected(filesData, cvs)
    decreases |filesData|
  {
    var n := |filesData| - 1;
    if k < n {
      SelectedComplete(filesData[..n], cvs, k);
    }
  }

  /** When every source has a summary, each entry is analysed once, in order. */
  lemma {:induction false} SelectedAllCovered(filesData: Dict<seq<FileData>>, cvs: map<string, SourceCV>)
    requires forall k :: 0 <= k < |filesData| ==> filesData[k].0 in cvs
    ensures |Selected(filesData, cvs)| == |filesData|
    ensures forall k :: 0 <= k < |filesData| ==>
      Selected(filesData, cvs)[k] == Job(filesData[k].0, filesData[k].1, cvs[filesData[k].0])
    decreases |filesData|
  {
    if filesData != [] {
      SelectedAllCovered(filesData[..|filesData| - 1], cvs);
    }
  }

  /** Sources without a summary contribute nothing. */
  lemma {:induction false} UnsummarisedSkipped(filesData: Dict<seq<FileData>>, cvs: map<string, SourceCV>)
    requires forall k :: 0 <= k < |filesData| ==> filesData[k].0 !in cvs
    ensures Selected(filesData, cvs) == []
    decreases |filesData|
  {
    if filesData != [] {
      UnsummarisedSkipped(filesData[..|filesData| - 1], cvs);
    }
  }
}
