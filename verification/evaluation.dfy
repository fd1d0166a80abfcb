/**
  The scoring step of `evaluate_agent`: each source report of a global report is
  compared with the ground truth, URGENT being the positive class, and the counts
  give precision, recall and F1 (exact reals).
*/
module Evaluation {
  import opened Models

  /** The four cells of the confusion matrix. */
  datatype Verdict = TP | FP | FN | TN

  /** The expected status of each labelled source for the 2025-09-10 run. */
  const GroundTruth: map<string, Severity> := map[
    "220504" := Urgent,
    "220505" := Urgent,
    "220506" := Urgent,
    "196125" := Urgent,
    "195385" := Urgent
  ]

  /** The expected status of a source: its ground truth, or ALL_GOOD when it has none. */
  function Actual(truth: map<string, Severity>, sourceId: string): Severity {
    if sourceId in truth then truth[sourceId] else AllGood
  }

  /** Only URGENT counts as positive, on the predicted side and on the actual side. */
  function Classify(predicted: Severity, actual: Severity): (v: Verdict)
    ensures (v == TP || v == FP) <==> predicted == Urgent
    ensures (v == TP || v == FN) <==> actual == Urgent
  {
    var predictedUrgent := predicted == Urgent;
    var actualUrgent := actual == Urgent;
    if predictedUrgent && actualUrgent then TP
    else if predictedUrgent && !actualUrgent then FP
    else if !predictedUrgent && actualUrgent then FN
    else TN
  }

  /** One line of the results table: source, actual value, predicted value, verdict. */
  datatype ResultRow = ResultRow(source: string, actual: string, predicted: string, result: Verdict)

  function RowFor(truth: map<string, Severity>, report: SourceReport): ResultRow {
    var actual := Actual(truth, report.sourceId);
    ResultRow(report.sourceId, SeverityValue(actual), SeverityValue(report.status), Classify(report.status, actual))
  }

  /** The number of rows with verdict `v`. */
  function Count(rows: seq<ResultRow>, v: Verdict): nat {
    if rows == [] then 0
    else Count(rows[..|rows| - 1], v) + (if rows[|rows| - 1].result == v then 1 else 0)
  }

  /** Every row has exactly one verdict, so the four counts add up to the number of rows. */
  lemma {:induction false} CountsPartition(rows: seq<ResultRow>)
    ensures Count(rows, TP) + Count(rows, FP) + Count(rows, FN) + Count(rows, TN) == |rows|
  {
    if rows != [] {
      CountsPartition(rows[..|rows| - 1]);
    }
  }

  lemma CountAppend(rows: seq<ResultRow>, row: ResultRow)
    ensures forall v :: Count(rows + [row], v) == Count(rows, v) + (if row.result == v then 1 else 0)
  {
    assert (rows + [row])[..|rows|] == rows;
  }

  /** The counting loop: one result row per report, in order, and one counter incremented per report. */
  method Tally(reports: seq<SourceReport>, truth: map<string, Severity>)
    returns (tp: nat, fp: nat, fn: nat, tn: nat, results: seq<ResultRow>)
    ensures |results| == |reports|
    ensures forall k :: 0 <= k < |reports| ==> results[k] == RowFor(truth, reports[k])
    ensures tp == Count(results, TP) && fp == Count(results, FP)
    ensures fn == Count(results, FN) && tn == Count(results, TN)
    ensures tp + fp + fn + tn == |reports|
  {
    tp, fp, fn, tn := 0, 0, 0, 0;
    results := [];
    for i := 0 to |reports|
      invariant |results| == i
      invariant forall k :: 0 <= k < i ==> results[k] == RowFor(truth, reports[k])
      invariant tp == Count(results, TP) && fp == Count(results, FP)
      invariant fn == Count(results, FN) && tn == Count(results, TN)
    {
      var sr := reports[i];
      var predicted := sr.status;
      var actual := Actual(truth, sr.sourceId);
      var isPredictedUrgent := predicted == Urgent;
      var isActualUrgent := actual == Urgent;
      var res: Verdict;
      if isPredictedUrgent && isActualUrgent {
        tp := tp + 1;
        res := TP;
      } else if isPredictedUrgent && !isActualUrgent {
        fp := fp + 1;
        res := FP;
      } else if !isPredictedUrgent && isActualUrgent {
        fn := fn + 1;
        res := FN;
      } else {
        tn := tn + 1;
        res := TN;
      }
      var row := ResultRow(sr.sourceId, SeverityValue(actual), SeverityValue(predicted), res);
      assert row == RowFor(truth, sr);
      CountAppend(results, row);
      results := results + [row];
    }
    CountsPartition(results);
  }

  /** A source without ground truth counts as ALL_GOOD, so it can only be a false positive or a true negative. */
  lemma AbsentIsNegative(truth: map<string, Severity>, report: SourceReport)
    requires report.sourceId !in truth
    ensures RowFor(truth, report).result == FP || RowFor(truth, report).result == TN
    ensures RowFor(truth, report).actual == "ALL_GOOD"
  {
  }

  /** Against the ground truth, a report is an actual positive exactly when its source is one of the five labelled ones. */
  lemma GroundTruthPositives(report: SourceReport)
    ensures var v := RowFor(GroundTruth, report).result;
      (v == TP || v == FN) <==> report.sourceId in {"220504", "220505", "220506", "196125", "195385"}
  {
  }

  /** The share of predicted positives that are true positives; 0 when nothing was predicted positive. */
  function Precision(tp: nat, fp: nat): (p: real)
    ensures 0.0 <= p <= 1.0
    ensures tp + fp == 0 ==> p == 0.0
    ensures tp + fp > 0 ==> p * (tp + fp) as real == tp as real
  {
    if tp + fp > 0 then tp as real / (tp + fp) as real else 0.0
  }

  /** The share of actual positives that were predicted positive; 0 when there are none. */
  function Recall(tp: nat, fn: nat): (r: real)
    ensures 0.0 <= r <= 1.0
    ensures tp + fn == 0 ==> r == 0.0
    ensures tp + fn > 0 ==> r * (tp + fn) as real == tp as real
  {
    if tp + fn > 0 then tp as real / (tp + fn) as real else 0.0
  }

  /** The harmonic mean of precision and recall; 0 when both are 0. */
  function F1(precision: real, recall: real): (f: real)
    ensures precision + recall <= 0.0 ==> f == 0.0
    ensures precision + recall > 0.0 ==> f * (precision + recall) == 2.0 * precision * recall
  {
    if precision + recall > 0.0 then 2.0 * (precision * recall) / (precision + recall) else 0.0
  }

  /** F1 lies between precision and recall, so it is within [0, 1] like them. */
  lemma F1Between(tp: nat, fp: nat, fn: nat)
    ensures var p := Precision(tp, fp); var r := Recall(tp, fn); var f := F1(p, r);
      && (p <= r ==> p <= f <= r)
      && (r <= p ==> r <= f <= p)
      && 0.0 <= f <= 1.0
  {
    var p := Precision(tp, fp);
    var r := Recall(tp, fn);
    var f := F1(p, r);
    if p + r > 0.0 {
      var s := p + r;
      assert (f - p) * s == p * (r - p);
      assert (r - f) * s == r * (r - p);
      assert (f - r) * s == r * (p - r);
      assert (p - f) * s == p * (p - r);
      if p <= r {
        NonNegativeFactor(f - p, s, p, r - p);
        NonNegativeFactor(r - f, s, r, r - p);
      } else {
        NonNegativeFactor(f - r, s, r, p - r);
        NonNegativeFactor(p - f, s, p, p - r);
      }
    }
  }

  /** If x * s equals a product of non-negatives and s is positive, x is non-negative. */
  lemma NonNegativeFactor(x: real, s: real, a: real, b: real)
    requires s > 0.0 && a >= 0.0 && b >= 0.0 && x * s == a * b
    ensures x >= 0.0
  {
    assert a * b >= 0.0;
  }

  /** With no false positive, no false negative and at least one true positive, every score is 1. */
  lemma PerfectScores(tp: nat)
    requires tp > 0
    ensures Precision(tp, 0) == 1.0 && Recall(tp, 0) == 1.0 && F1(1.0, 1.0) == 1.0
  {
  }
}
