/** Grading a run against the human labels of the CSV file, and the final
    comparison of the strategies against the baseline. */
module Scoring {
  import opened Wrappers
  import opened Json
  import opened Oracle
  import opened Strategies
  import opened Runner
  import opened CsvInput

  /** Ground truth, keyed by the 1-based `transcript_index`. */
  type Truth = map<nat, Json>

  /** The accuracy of a run: `correct / total * 100`, or 0 for an empty run.
      (`correct` is the count of hits, not the lossy `int(accuracy * n / 100)`
      the summary keeps.) */
  datatype Score = Score(correct: nat, total: nat, accuracy: real)

  /** A record whose index has a label, and whose predicted intent equals it. */
  predicate Hit(r: Record, truth: Truth) {
    r.transcriptIndex in truth && r.result.Intent() == truth[r.transcriptIndex]
  }

  /** Positions `< n` of the run graded correct. */
  function HitsBelow(run: seq<Record>, truth: Truth, n: nat): set<nat>
    requires n <= |run|
  {
    set i: nat | i < n && Hit(run[i], truth)
  }

  /** The running count of hits over the first `n` records. */
  function CountHits(run: seq<Record>, truth: Truth, n: nat): nat
    requires n <= |run|
  {
    if n == 0 then 0 else CountHits(run, truth, n - 1) + (if Hit(run[n - 1], truth) then 1 else 0)
  }

  /** The running count is the number of positions graded correct, and never
      exceeds the number of records seen. */
  lemma {:induction false} CountHitsSpec(run: seq<Record>, truth: Truth, n: nat)
    requires n <= |run|
    ensures CountHits(run, truth, n) == |HitsBelow(run, truth, n)|
    ensures CountHits(run, truth, n) <= n
  {
    if n > 0 {
      CountHitsSpec(run, truth, n - 1);
      var prev := HitsBelow(run, truth, n - 1);
      assert n - 1 !in prev;
      if Hit(run[n - 1], truth) {
        assert HitsBelow(run, truth, n) == prev + {n - 1};
      } else {
        assert HitsBelow(run, truth, n) == prev;
      }
    }
  }

  function Accuracy(correct: nat, total: nat): real {
    if total > 0 then (correct as real) / (total as real) * 100.0 else 0.0
  }

  /** A percentage of hits lies between 0 and 100. */
  lemma AccuracyBounds(correct: nat, total: nat)
    requires correct <= total
    ensures 0.0 <= Accuracy(correct, total) <= 100.0
  {
    if total > 0 {
      assert (correct as real) / (total as real) <= 1.0;
    }
  }

  /** `evaluate_accuracy`: a record whose index has no label raises
      `KeyError` (`None` here); otherwise the score counts the records whose
      intent equals the label, and the accuracy is their percentage. */
  method EvaluateAccuracy(run: seq<Record>, truth: Truth) returns (score: Option<Score>)
    ensures score.None? <==> exists i :: 0 <= i < |run| && run[i].transcriptIndex !in truth
    ensures score.Some? ==>
      score.value.total == |run| &&
      score.value.correct == |HitsBelow(run, truth, |run|)| &&
      score.value.accuracy == Accuracy(score.value.correct, |run|)
    ensures score.Some? ==> 0.0 <= score.value.accuracy <= 100.0
  {
    var correct := 0;
    var i := 0;
    while i < |run|
      invariant 0 <= i <= |run|
      invariant forall j :: 0 <= j < i ==> run[j].transcriptIndex in truth
      invariant correct == CountHits(run, truth, i)
    {
      var idx := run[i].transcriptIndex;
      if idx !in truth {
        return None;
      }
      if run[i].result.Intent() == truth[idx] {
        correct := correct + 1;
      }
      i := i + 1;
    }
    CountHitsSpec(run, truth, |run|);
    AccuracyBounds(correct, |run|);
    score := Some(Score(correct, |run|, Accuracy(correct, |run|)));
  }

  // ---------------------------------------------------------------------
  // Ground truth

  /** The label column of the CSV file. */
  const LabelColumn: string := "human_generated_intent"

  /** `row['human_generated_intent']` as the value compared with the
      predicted intent: a short row's missing cell is `None`. */
  function LabelOf(row: Row): Json
    requires LabelColumn in row
  {
    match row[LabelColumn]
    case Some(s) => JStr(s)
    case None => JNull
  }

  predicate Labelled(rows: seq<Row>) {
    forall i :: 0 <= i < |rows| ==> LabelColumn in rows[i]
  }

  /** The labels keyed 1, 2, ... in order: how both the transcript indices
      and the ground-truth keys are numbered. */
  function Numbered(labels: seq<Json>): (truth: Truth)
    ensures forall k :: k in truth <==> 1 <= k <= |labels|
    ensures forall k :: 1 <= k <= |labels| ==> truth[k] == labels[k - 1]
  {
    if |labels| == 0 then map[]
    else Numbered(labels[..|labels| - 1])[|labels| := labels[|labels| - 1]]
  }

  /** The label of every row, in file order. */
  function RowLabels(rows: seq<Row>): seq<Json>
    requires Labelled(rows)
  {
    seq(|rows|, i requires 0 <= i < |rows| => LabelOf(rows[i]))
  }

  /** The label of every row that yields a transcript, in file order. */
  function KeptLabels(rows: seq<Row>): (labels: seq<Json>)
    requires Labelled(rows)
    ensures |labels| == |KeptIndices(rows)|
  {
    CsvTranscriptsSpec(rows);
    var kept := KeptIndices(rows);
    seq(|kept|, k requires 0 <= k < |kept| => LabelOf(rows[kept[k]]))
  }

  /** The ground-truth loop of `main` as written: every row, empty
      transcript or not, takes the next 1-based index; a row without the
      label column raises `KeyError` (`None` here). */
  function LoadGroundTruth(rows: seq<Row>): (truth: Option<Truth>)
    ensures truth.Some? <==> Labelled(rows)
    ensures truth.Some? ==> forall k :: k in truth.value <==> 1 <= k <= |rows|
    ensures truth.Some? ==> forall k :: 1 <= k <= |rows| ==> truth.value[k] == LabelOf(rows[k - 1])
  {
    if Labelled(rows) then Some(Numbered(RowLabels(rows))) else None
  }

  /** The ground truth keyed the way the transcripts are numbered: the
      label of the k-th row that yields a transcript gets index k. */
  function AlignedGroundTruth(rows: seq<Row>): (truth: Option<Truth>)
    ensures truth.Some? <==> Labelled(rows)
  {
    if Labelled(rows) then Some(Numbered(KeptLabels(rows))) else None
  }

  /** The corrected ground truth grades the k-th transcript against the label
      on the very row that transcript came from. */
  lemma AlignedGroundTruthSpec(rows: seq<Row>)
    requires Labelled(rows)
    ensures |CsvTranscripts(rows)| == |KeptIndices(rows)|
    ensures forall k :: k in AlignedGroundTruth(rows).value <==> 1 <= k <= |CsvTranscripts(rows)|
    ensures forall k :: 0 <= k < |CsvTranscripts(rows)| ==>
      KeptIndices(rows)[k] < |rows| &&
      CsvTranscripts(rows)[k] == RowTranscript(rows[KeptIndices(rows)[k]]) &&
      AlignedGroundTruth(rows).value[k + 1] == LabelOf(rows[KeptIndices(rows)[k]])
  {
    CsvTranscriptsSpec(rows);
  }

  /** As written, the pairing is right when no row is skipped: then the two
      ground truths coincide and transcript k is graded against row k. */
  lemma GroundTruthAlignedWithoutEmptyRows(rows: seq<Row>)
    requires Labelled(rows)
    requires forall i :: 0 <= i < |rows| ==> Kept(rows[i])
    ensures LoadGroundTruth(rows) == AlignedGroundTruth(rows)
    ensures |CsvTranscripts(rows)| == |rows|
    ensures forall k :: 0 <= k < |rows| ==>
      CsvTranscripts(rows)[k] == RowTranscript(rows[k]) && LoadGroundTruth(rows).value[k + 1] == LabelOf(rows[k])
  {
    AllKept(rows);
    assert KeptLabels(rows) == RowLabels(rows);
  }

  /** Two rows, the first with an empty transcript: the one transcript read,
      "hello", gets index 1 and is graded against the first row's label,
      not its own. */
  lemma GroundTruthMisaligned()
    ensures var rows := [
        map["transcript" := Some(""), LabelColumn := Some("voice_interested")],
        map["transcript" := Some("hello"), LabelColumn := Some("voice_voice_mail")]];
      CsvTranscripts(rows) == ["hello"] &&
      LoadGroundTruth(rows).Some? &&
      LoadGroundTruth(rows).value[1] == JStr("voice_interested") &&
      AlignedGroundTruth(rows).Some? &&
      AlignedGroundTruth(rows).value[1] == JStr("voice_voice_mail")
  {
    var rows := [
        map["transcript" := Some(""), LabelColumn := Some("voice_interested")],
        map["transcript" := Some("hello"), LabelColumn := Some("voice_voice_mail")]];
    assert rows[..1][..0] == [];
    assert rows[..|rows| - 1] == rows[..1];
    assert !Kept(rows[0]) && Kept(rows[1]);
    assert KeptIndices(rows[..1]) == [];
    assert KeptIndices(rows) == [1];
    assert CsvTranscripts(rows[..1]) == [];
    assert KeptLabels(rows)[0] == JStr("voice_voice_mail");
  }

  /** Transcript `i` of the file, graded with the aligned labels, is correct. */
  predicate Correct(s: Strategy, rows: seq<Row>, scripts: seq<seq<CallOutcome>>, i: nat)
    requires Scripted(s, CsvTranscripts(rows), scripts) && Labelled(rows) && i < |KeptIndices(rows)|
  {
    CsvTranscriptsSpec(rows);
    TaskResult(s, CsvTranscripts(rows), scripts, i).Intent() == KeptLabels(rows)[i]
  }

  /** Reading, grading and scoring one strategy over a CSV file, with the
      labels aligned to the transcripts: no record lacks a label, and the
      score counts the transcripts whose predicted intent is the label on
      their own row. */
  method Evaluate(s: Strategy, rows: seq<Row>, scripts: seq<seq<CallOutcome>>, order: seq<nat>)
    returns (score: Option<Score>)
    requires Scripted(s, CsvTranscripts(rows), scripts)
    requires IsPermutation(order, |CsvTranscripts(rows)|)
    ensures score.Some? <==> Labelled(rows)
    ensures score.Some? ==>
      var n := |KeptIndices(rows)|;
      score.value.total == n &&
      score.value.correct == |set i: nat | i < n && Correct(s, rows, scripts, i)| &&
      score.value.accuracy == Accuracy(score.value.correct, n)
  {
    var transcripts := CsvTranscripts(rows);
    var truth := AlignedGroundTruth(rows);
    if truth.None? {
      return None;
    }
    AlignedGroundTruthSpec(rows);
    var run := RunMethod(s, transcripts, scripts, order);
    score := EvaluateAccuracy(run, truth.value);
    GradedHits(s, rows, scripts, run);
  }

  lemma GradedHits(s: Strategy, rows: seq<Row>, scripts: seq<seq<CallOutcome>>, run: seq<Record>)
    requires Scripted(s, CsvTranscripts(rows), scripts) && Labelled(rows)
    requires |run| == |CsvTranscripts(rows)|
    requires forall i :: 0 <= i < |run| ==> run[i] == RecordAt(s, CsvTranscripts(rows), scripts, i)
    ensures HitsBelow(run, AlignedGroundTruth(rows).value, |run|) ==
      set i: nat | i < |KeptIndices(rows)| && Correct(s, rows, scripts, i)
  {
    AlignedGroundTruthSpec(rows);
  }

  /** Transcript `i` of the file, graded as `main` grades it: against the
      label of row `i`, whichever row the transcript was read from. */
  predicate CorrectAsWritten(s: Strategy, rows: seq<Row>, scripts: seq<seq<CallOutcome>>, i: nat)
    requires Scripted(s, CsvTranscripts(rows), scripts) && Labelled(rows) && i < |KeptIndices(rows)|
  {
    CsvTranscriptsSpec(rows);
    TaskResult(s, CsvTranscripts(rows), scripts, i).Intent() == LabelOf(rows[i])
  }

  /** Reading, running and scoring one strategy over a CSV file as `main`
      does, with the ground truth numbered over every row. A row without the
      label column raises `KeyError`; otherwise no transcript lacks a label,
      and the score counts the transcripts whose predicted intent is the
      label on the row of the same number. When no row is skipped that is
      their own row, and the score is the aligned one. */
  method EvaluateAsWritten(s: Strategy, rows: seq<Row>, scripts: seq<seq<CallOutcome>>, order: seq<nat>)
    returns (score: Option<Score>)
    requires Scripted(s, CsvTranscripts(rows), scripts)
    requires IsPermutation(order, |CsvTranscripts(rows)|)
    ensures score.Some? <==> Labelled(rows)
    ensures score.Some? ==>
      var n := |KeptIndices(rows)|;
      score.value.total == n &&
      score.value.correct == |set i: nat | i < n && CorrectAsWritten(s, rows, scripts, i)| &&
      score.value.accuracy == Accuracy(score.value.correct, n)
    ensures score.Some? && (forall i :: 0 <= i < |rows| ==> Kept(rows[i])) ==>
      score.value.correct == |set i: nat | i < |KeptIndices(rows)| && Correct(s, rows, scripts, i)|
  {
    var transcripts := CsvTranscripts(rows);
    var truth := LoadGroundTruth(rows);
    if truth.None? {
      return None;
    }
    CsvTranscriptsSpec(rows);
    var run := RunMethod(s, transcripts, scripts, order);
    score := EvaluateAccuracy(run, truth.value);
    GradedHitsAsWritten(s, rows, scripts, run);
    if forall i :: 0 <= i < |rows| ==> Kept(rows[i]) {
      AsWrittenAgrees(s, rows, scripts);
    }
  }

  lemma GradedHitsAsWritten(s: Strategy, rows: seq<Row>, scripts: seq<seq<CallOutcome>>, run: seq<Record>)
    requires Scripted(s, CsvTranscripts(rows), scripts) && Labelled(rows)
    requires |run| == |CsvTranscripts(rows)|
    requires forall i :: 0 <= i < |run| ==> run[i] == RecordAt(s, CsvTranscripts(rows), scripts, i)
    ensures HitsBelow(run, LoadGroundTruth(rows).value, |run|) ==
      set i: nat | i < |KeptIndices(rows)| && CorrectAsWritten(s, rows, scripts, i)
  {
    CsvTranscriptsSpec(rows);
    forall i: nat | i < |run|
      ensures Hit(run[i], LoadGroundTruth(rows).value) == CorrectAsWritten(s, rows, scripts, i)
    {
      HitAsWritten(s, rows, scripts, i);
    }
  }

  /** Record `i` is graded against the label of row `i`. */
  lemma HitAsWritten(s: Strategy, rows: seq<Row>, scripts: seq<seq<CallOutcome>>, i: nat)
    requires Scripted(s, CsvTranscripts(rows), scripts) && Labelled(rows) && i < |CsvTranscripts(rows)|
    requires i < |KeptIndices(rows)|
    ensures (Hit(RecordAt(s, CsvTranscripts(rows), scripts, i), LoadGroundTruth(rows).value) <==>
       CorrectAsWritten(s, rows, scripts, i))
  {
    CsvTranscriptsSpec(rows);
    assert i + 1 <= |rows|;
    assert LoadGroundTruth(rows).value[i + 1] == LabelOf(rows[i]);
  }

  /** With no row skipped, grading as written and grading aligned agree on
      every transcript. */
  lemma AsWrittenAgrees(s: Strategy, rows: seq<Row>, scripts: seq<seq<CallOutcome>>)
    requires Scripted(s, CsvTranscripts(rows), scripts) && Labelled(rows)
    requires forall i :: 0 <= i < |rows| ==> Kept(rows[i])
    ensures (set i: nat | i < |KeptIndices(rows)| && CorrectAsWritten(s, rows, scripts, i)) ==
      set i: nat | i < |KeptIndices(rows)| && Correct(s, rows, scripts, i)
  {
    AllKept(rows);
    CsvTranscriptsSpec(rows);
    forall i | 0 <= i < |KeptIndices(rows)|
      ensures CorrectAsWritten(s, rows, scripts, i) == Correct(s, rows, scripts, i)
    {
      assert KeptIndices(rows)[i] == i;
    }
  }

  // ---------------------------------------------------------------------
  // Final comparison

  /** The summary kept for one strategy. */
  datatype MethodStats = MethodStats(strategy: Strategy, accuracy: real, duration: real)

  /** The notes column: the baseline itself, or its signed percentage-point
      difference from the baseline. */
  datatype Note = BaselineNote | VersusBaseline(delta: real)

  datatype ComparisonRow = ComparisonRow(strategy: Strategy, accuracy: real, duration: real, note: Note)

  const Baseline: Strategy := OneCall(BaselinePrompt)

  /** `results_summary` is a dict keyed by strategy name: one entry each. */
  predicate DistinctStrategies(stats: seq<MethodStats>) {
    forall i, j :: 0 <= i < j < |stats| ==> stats[i].strategy != stats[j].strategy
  }

  function BaselineAt(stats: seq<MethodStats>): (b: nat)
    requires exists i :: 0 <= i < |stats| && stats[i].strategy == Baseline
    ensures b < |stats| && stats[b].strategy == Baseline
    ensures forall i :: 0 <= i < b ==> stats[i].strategy != Baseline
  {
    if stats[0].strategy == Baseline then 0
    else 1 + BaselineAt(stats[1..])
  }

  /** The final comparison table: printed only when more than one strategy
      ran, one row per strategy in the order they ran, the baseline row
      noted as such and every other row with its accuracy minus the
      baseline's. `results_summary['baseline']` must exist then. */
  function FinalComparison(stats: seq<MethodStats>): (table: Option<seq<ComparisonRow>>)
    requires |stats| > 1 ==> exists i :: 0 <= i < |stats| && stats[i].strategy == Baseline
    ensures table.Some? <==> |stats| > 1
    ensures table.Some? ==> |table.value| == |stats|
    ensures table.Some? ==> forall i :: 0 <= i < |stats| ==>
      var r := table.value[i];
      r.strategy == stats[i].strategy && r.accuracy == stats[i].accuracy && r.duration == stats[i].duration &&
      (r.note.BaselineNote? <==> stats[i].strategy == Baseline)
    ensures table.Some? ==> forall i, b ::
      (0 <= i < |stats| && 0 <= b < |stats| && DistinctStrategies(stats) &&
       stats[b].strategy == Baseline && stats[i].strategy != Baseline) ==>
      table.value[i].note == VersusBaseline(stats[i].accuracy - stats[b].accuracy)
  {
    if |stats| <= 1 then None
    else
      var base := stats[BaselineAt(stats)].accuracy;
      Some(seq(|stats|, i requires 0 <= i < |stats| =>
        ComparisonRow(stats[i].strategy, stats[i].accuracy, stats[i].duration,
          if stats[i].strategy == Baseline then BaselineNote else VersusBaseline(stats[i].accuracy - base))))
  }

  /** Running `all` yields stats the comparison accepts. */
  lemma AllComparable(stats: seq<MethodStats>)
    requires |stats| == |MethodsToTest(All)|
    requires forall i :: 0 <= i < |stats| ==> stats[i].strategy == MethodsToTest(All)[i]
    ensures DistinctStrategies(stats)
    ensures FinalComparison(stats).Some?
    ensures FinalComparison(stats).value[0].note == BaselineNote
  {
    assert stats[0].strategy == Baseline;
  }
}
