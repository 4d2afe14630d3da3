/** The batch script `classify_logs.py`: classify every transcript of a log
    with one fail-safe oracle call, tally the labels with a `Counter`, and
    summarise the tally by count. */
module Batch {
  import opened Wrappers
  import opened Json
  import opened Oracle
  import opened Counters
  import opened Strategies
  import opened LogReader

  /** `classify_transcript`: never raises; any failure of the call or of
      `.get` gives the sentinel, and so does a reply without `"intent"`. */
  function ClassifyTranscript(o: CallOutcome): (intent: Json)
    ensures o.Raised? ==> intent == UnknownLabel
    ensures o.Replied? && !o.reply.JObject? ==> intent == UnknownLabel
    ensures o.Replied? && o.reply.JObject? ==>
      intent == if "intent" in o.reply.fields then o.reply.fields["intent"] else UnknownLabel
  {
    match o
    case Raised(_) => UnknownLabel
    case Replied(v) =>
      match IntentField(v)
      case Success(i) => i
      case Failure(_) => UnknownLabel
  }

  /** The batch script and every one-call strategy of the harness put the
      same label on the same oracle outcome. */
  lemma SameLabelAsHarness(p: Prompt, o: CallOutcome)
    ensures ClassifyTranscript(o) == ClassifyOnce(p, o).intent
  {
  }

  /** One entry of `results` (its `classified_at` clock reading left out). */
  datatype LogResult = LogResult(transcriptIndex: nat, transcript: Json, intent: Json)

  /** The per-transcript results and the label tally of a completed pass. */
  datatype Report = Report(results: seq<LogResult>, tally: Counts<Json>)

  /** The label of every transcript, in order. */
  function Labels(outcomes: seq<CallOutcome>): (labels: seq<Json>)
    ensures |labels| == |outcomes|
    ensures forall k :: 0 <= k < |outcomes| ==> labels[k] == ClassifyTranscript(outcomes[k])
  {
    seq(|outcomes|, k requires 0 <= k < |outcomes| => ClassifyTranscript(outcomes[k]))
  }

  /** The classification loop of `main`: `outcomes[k]` is what the oracle
      call for transcript `k` produced. Each transcript gets one result,
      numbered from 1 in input order, and the tally counts every label; a
      list or dict label makes `classifications[intent] += 1` raise, which
      ends the script. */
  method ClassifyAll(transcripts: seq<Json>, outcomes: seq<CallOutcome>) returns (r: Result<Report, string>)
    requires |outcomes| == |transcripts|
    ensures r.Success? <==> forall k :: 0 <= k < |outcomes| ==> Hashable(ClassifyTranscript(outcomes[k]))
    ensures r.Failure? ==> r.error == UnhashableIn(Labels(outcomes))
    ensures r.Success? ==>
      |r.value.results| == |transcripts| &&
      forall k :: 0 <= k < |transcripts| ==>
        r.value.results[k] == LogResult(k + 1, transcripts[k], ClassifyTranscript(outcomes[k]))
    ensures r.Success? ==> r.value.tally == Tally(Labels(outcomes))
    ensures r.Success? ==>
      Total(r.value.tally) == |transcripts| &&
      Keys(r.value.tally) == Dedup(Labels(outcomes)) &&
      forall v :: Lookup(r.value.tally, v) == Occurrences(Labels(outcomes), v)
  {
    var labels := Labels(outcomes);
    var results: seq<LogResult> := [];
    var tally: Counts<Json> := [];
    var i := 0;
    while i < |transcripts|
      invariant 0 <= i <= |transcripts|
      invariant |results| == i
      invariant forall k :: 0 <= k < i ==> Hashable(labels[k])
      invariant forall k :: 0 <= k < i ==> results[k] == LogResult(k + 1, transcripts[k], labels[k])
      invariant tally == Tally(labels[..i])
    {
      var intent := ClassifyTranscript(outcomes[i]);
      if !Hashable(intent) {
        return Failure(UnhashableIn(labels));
      }
      TallySnoc(labels[..i], intent);
      assert labels[..i + 1] == labels[..i] + [intent];
      tally := Bump(tally, intent);
      results := results + [LogResult(i + 1, transcripts[i], intent)];
      i := i + 1;
    }
    assert labels[..i] == labels;
    TallySpec(labels);
    r := Success(Report(results, tally));
  }

  // ---------------------------------------------------------------------
  // Summary

  /** One summary line: a label, its count and its share of the total in
      percent (the column widths and rounding of the printout left out). */
  datatype SummaryLine = SummaryLine(intent: Json, count: nat, percentage: real)

  /** The summary: the header's transcript count and the lines by count. */
  datatype Summary = Summary(processed: nat, lines: seq<SummaryLine>)

  /** `str(e)` of the `ZeroDivisionError` of `count / total_count`. */
  const DivisionByZero: string := "division by zero"

  /** `str(e)` of the `TypeError` of `f"{intent:30}"` on `None`: a width
      cannot be applied to `None`. */
  const NoneFormat: string := "unsupported format string passed to NoneType.__format__"

  function Pairs(lines: seq<SummaryLine>): (r: Counts<Json>)
    ensures |r| == |lines|
    ensures forall k :: 0 <= k < |lines| ==> r[k] == (lines[k].intent, lines[k].count)
  {
    seq(|lines|, k requires 0 <= k < |lines| => (lines[k].intent, lines[k].count))
  }

  /** `generate_summary`: the header reports the total passed in; the lines
      list every tallied label in non-increasing count order, labels with
      equal counts in their first-seen order, each with its percentage. A
      non-empty tally with a zero total divides by zero, and a `None` label
      cannot be formatted to a width. */
  function GenerateSummary(tally: Counts<Json>, total: nat): (r: Result<Summary, string>)
    ensures r.Failure? <==> |tally| > 0 && (total == 0 || exists k :: 0 <= k < |tally| && tally[k].0 == JNull)
    ensures r.Failure? && total == 0 ==> r.error == DivisionByZero
    ensures r.Failure? && total > 0 ==> r.error == NoneFormat
    ensures r.Success? ==> r.value.processed == total
    ensures r.Success? ==>
      var pairs := Pairs(r.value.lines);
      NonIncreasing(pairs) &&
      multiset(pairs) == multiset(tally) &&
      (forall c :: WithCount(pairs, c) == WithCount(tally, c)) &&
      Total(pairs) == Total(tally)
    ensures r.Success? ==> forall k :: 0 <= k < |r.value.lines| ==>
      r.value.lines[k].percentage == (r.value.lines[k].count as real) / (total as real) * 100.0
  {
    if |tally| > 0 && total == 0 then Failure(DivisionByZero)
    else if exists k :: 0 <= k < |tally| && tally[k].0 == JNull then
      assert |tally| > 0;
      Failure(NoneFormat)
    else
      var sorted := SortByCountDesc(tally);
      SortByCountDescSpec(tally);
      SortByCountDescTotal(tally);
      var lines := seq(|sorted|, k requires 0 <= k < |sorted| =>
        SummaryLine(sorted[k].0, sorted[k].1, (sorted[k].1 as real) / (total as real) * 100.0));
      assert Pairs(lines) == sorted;
      Success(Summary(total, lines))
  }

  /** After a completed pass the summary reports every transcript: its
      header count and the sum of its lines are the number of transcripts.
      It fails only when the oracle labelled some transcript `null`; an empty
      log never divides by zero. */
  lemma SummaryOfPass(outcomes: seq<CallOutcome>)
    requires forall k :: 0 <= k < |outcomes| ==> Hashable(ClassifyTranscript(outcomes[k]))
    ensures var r := GenerateSummary(Tally(Labels(outcomes)), |outcomes|);
      (r.Success? <==> JNull !in Labels(outcomes)) &&
      (r.Success? ==> r.value.processed == |outcomes| && Total(Pairs(r.value.lines)) == |outcomes|)
  {
    var labels := Labels(outcomes);
    var tally := Tally(labels);
    TallySpec(labels);
    DedupMembers(labels);
    assert forall k :: 0 <= k < |tally| ==> tally[k].0 == Keys(tally)[k];
    if JNull in labels {
      assert JNull in Keys(tally);
    }
    if |labels| > 0 {
      assert labels[0] in Keys(tally);
    }
  }

  /** Every label of the pass can be a `Counter` key. */
  predicate Countable(outcomes: seq<CallOutcome>) {
    forall k :: 0 <= k < |outcomes| ==> Hashable(ClassifyTranscript(outcomes[k]))
  }

  /** `main` after the key check: read the log (a read error ends the run),
      classify every transcript, and summarise. `outcomes[k]` is the oracle
      outcome for the k-th transcript read. A readable log completes exactly
      when every label can be counted and none is `null`: a list or dict
      label stops the tally, a `null` one the summary. */
  method ClassifyLog(file: LogFile, parse: Parser, render: Render, outcomes: seq<CallOutcome>)
    returns (r: Result<(Report, Summary), string>)
    requires ReadLogFile(file, parse, render).Success? ==> |outcomes| == |ReadLogFile(file, parse, render).value|
    ensures ReadLogFile(file, parse, render).Failure? ==> r == Failure(ReadLogFile(file, parse, render).error)
    ensures ReadLogFile(file, parse, render).Success? ==>
      (r.Success? <==> Countable(outcomes) && JNull !in Labels(outcomes))
    ensures ReadLogFile(file, parse, render).Success? && !Countable(outcomes) ==>
      r == Failure(UnhashableIn(Labels(outcomes)))
    ensures ReadLogFile(file, parse, render).Success? && Countable(outcomes) && JNull in Labels(outcomes) ==>
      r == Failure(NoneFormat)
    ensures r.Success? ==>
      var transcripts := ReadLogFile(file, parse, render).value;
      var (report, summary) := r.value;
      |report.results| == |transcripts| &&
      (forall k :: 0 <= k < |transcripts| ==>
        report.results[k] == LogResult(k + 1, transcripts[k], ClassifyTranscript(outcomes[k]))) &&
      report.tally == Tally(Labels(outcomes)) &&
      Success(summary) == GenerateSummary(Tally(Labels(outcomes)), |transcripts|) &&
      summary.processed == |transcripts| &&
      Total(Pairs(summary.lines)) == |transcripts|
  {
    var read := ReadLogFile(file, parse, render);
    if read.Failure? {
      return Failure(read.error);
    }
    var pass := ClassifyAll(read.value, outcomes);
    if pass.Failure? {
      return Failure(pass.error);
    }
    var report := pass.value;
    SummaryOfPass(outcomes);
    var summary := GenerateSummary(report.tally, |read.value|);
    if summary.Failure? {
      return Failure(summary.error);
    }
    r := Success((report, summary.value));
  }
}
