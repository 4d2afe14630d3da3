/** `run_method`: one strategy over the whole corpus, one worker task per
    transcript, results collected as the tasks complete and put back into
    corpus order. The pool is modelled by the order in which tasks complete. */
module Runner {
  import opened Wrappers
  import opened Json
  import opened Oracle
  import opened Strategies

  /** One entry of a run (the `classified_at` clock reading is not modelled). */
  datatype Record = Record(transcriptIndex: nat, transcript: string, result: ClassificationResult)

  /** The runner's own fail-safe around `future.result()`: a strategy call
      that raised is recorded as the sentinel together with the error. */
  function Recover(outcome: Result<ClassificationResult, string>): (r: ClassificationResult)
    ensures outcome.Success? ==> r == outcome.value
    ensures outcome.Failure? ==> r.Crashed? && r.failure == outcome.error && r.Intent() == UnknownLabel
  {
    match outcome
    case Success(v) => v
    case Failure(e) => Crashed(e)
  }

  /** `scripts[i]` holds the outcomes of the oracle calls the strategy makes
      for `transcripts[i]`. */
  predicate Scripted(s: Strategy, transcripts: seq<string>, scripts: seq<seq<CallOutcome>>) {
    |scripts| == |transcripts| && forall i :: 0 <= i < |scripts| ==> |scripts[i]| == CallsNeeded(s)
  }

  /** What the task for corpus position `i` hands back to the runner. */
  function TaskResult(s: Strategy, transcripts: seq<string>, scripts: seq<seq<CallOutcome>>, i: nat): ClassificationResult
    requires Scripted(s, transcripts, scripts) && i < |transcripts|
  {
    Recover(Dispatch(s, scripts[i]))
  }

  /** The record the task for corpus position `i` produces. */
  function RecordAt(s: Strategy, transcripts: seq<string>, scripts: seq<seq<CallOutcome>>, i: nat): Record
    requires Scripted(s, transcripts, scripts) && i < |transcripts|
  {
    Record(i + 1, transcripts[i], TaskResult(s, transcripts, scripts, i))
  }

  /** The run in corpus order; the completion order does not appear in it. */
  function RunOf(s: Strategy, transcripts: seq<string>, scripts: seq<seq<CallOutcome>>): seq<Record>
    requires Scripted(s, transcripts, scripts)
  {
    seq(|transcripts|, i requires 0 <= i < |transcripts| => RecordAt(s, transcripts, scripts, i))
  }

  function Indices(n: nat): seq<nat> {
    seq(n, i requires 0 <= i < n => i)
  }

  /** `as_completed` yields every task exactly once, in some order. */
  predicate IsPermutation(order: seq<nat>, n: nat) {
    multiset(order) == multiset(Indices(n))
  }

  /** The collection loop over `as_completed`: the task for position `index`
      finishing with `results[index]` writes the record for that position.
      Afterwards every position has its own record, whatever the order. */
  method Collect(transcripts: seq<string>, results: seq<ClassificationResult>, order: seq<nat>)
    returns (completed: map<nat, Record>)
    requires |results| == |transcripts|
    requires IsPermutation(order, |transcripts|)
    ensures forall i :: 0 <= i < |transcripts| ==> i in completed
    ensures forall j :: j in completed ==>
      j < |transcripts| && completed[j] == Record(j + 1, transcripts[j], results[j])
  {
    var n := |transcripts|;
    completed := map[];
    var k := 0;
    while k < |order|
      invariant 0 <= k <= |order|
      invariant forall j :: j in completed ==> j < n && completed[j] == Record(j + 1, transcripts[j], results[j])
      invariant forall m :: 0 <= m < k ==> order[m] in completed
    {
      var index := order[k];
      assert index in multiset(Indices(n)) by { assert index in multiset(order); }
      completed := completed[index := Record(index + 1, transcripts[index], results[index])];
      k := k + 1;
    }
    forall i | 0 <= i < n ensures i in completed {
      assert Indices(n)[i] == i;
      assert i in multiset(order);
      var m :| 0 <= m < |order| && order[m] == i;
    }
  }

  /** Runs strategy `s` over `transcripts`; the tasks complete in `order`.
      Whatever the completion order, the run holds one record per transcript,
      in corpus order, each one what that transcript's task produced. */
  method RunMethod(s: Strategy, transcripts: seq<string>, scripts: seq<seq<CallOutcome>>, order: seq<nat>)
    returns (run: seq<Record>)
    requires Scripted(s, transcripts, scripts)
    requires IsPermutation(order, |transcripts|)
    ensures |run| == |transcripts|
    ensures forall i :: 0 <= i < |run| ==> run[i].transcriptIndex == i + 1 && run[i].transcript == transcripts[i]
    ensures forall i :: 0 <= i < |run| ==> run[i] == RecordAt(s, transcripts, scripts, i)
    ensures run == RunOf(s, transcripts, scripts)
  {
    var results := seq(|transcripts|, i requires 0 <= i < |transcripts| => TaskResult(s, transcripts, scripts, i));
    var completed := Collect(transcripts, results, order);
    run := seq(|transcripts|, i requires 0 <= i < |transcripts| => completed[i]);
  }

  /** A transcript whose every oracle call failed is labelled with the
      sentinel: a one-call strategy records the error itself, the ensemble
      records it on each of its three votes. */
  lemma FailingOracleGivesUnknown(s: Strategy, transcripts: seq<string>, scripts: seq<seq<CallOutcome>>, i: nat)
    requires Scripted(s, transcripts, scripts) && i < |transcripts|
    requires forall j :: 0 <= j < |scripts[i]| ==> scripts[i][j].Raised?
    ensures RecordAt(s, transcripts, scripts, i).result.Intent() == UnknownLabel
    ensures s.OneCall? ==> RecordAt(s, transcripts, scripts, i).result.error.Some?
    ensures s.Ensemble? ==>
      var r := RecordAt(s, transcripts, scripts, i).result;
      r.Voted? && |r.individual| == 3 && forall v :: 0 <= v < 3 ==> r.individual[v].error.Some?
  {
    if s.Ensemble? {
      var c := scripts[i];
      var c1, c2, c3 := Completed(c[0]), Completed(c[1]), Completed(c[2]);
      assert Vote(0, c1).intent == UnknownLabel && Vote(0, c1).error.Some?;
      assert Vote(1, c2).intent == UnknownLabel && Vote(1, c2).error.Some?;
      assert Vote(2, c3).intent == UnknownLabel && Vote(2, c3).error.Some?;
      assert VoteIntents(c1, c2, c3) == [UnknownLabel, UnknownLabel, UnknownLabel];
      TwoOfThree(UnknownLabel, UnknownLabel);
    }
  }

  /** An ensemble task with a list or dict vote raises inside the strategy;
      the runner still records that transcript, as the sentinel with the
      error of the first such vote. */
  lemma RaisingStrategyStillRecorded(transcripts: seq<string>, scripts: seq<seq<CallOutcome>>, i: nat)
    requires Scripted(Ensemble, transcripts, scripts) && i < |transcripts|
    requires exists v :: 0 <= v < 3 && !Hashable(Vote(v, Completed(scripts[i][v])).intent)
    ensures var c := scripts[i];
      var xs := VoteIntents(Completed(c[0]), Completed(c[1]), Completed(c[2]));
      && (exists k :: 0 <= k < |xs| && !Hashable(xs[k]))
      && RecordAt(Ensemble, transcripts, scripts, i) == Record(i + 1, transcripts[i], Crashed(UnhashableIn(xs)))
  {
    var c := scripts[i];
    var c1, c2, c3 := Completed(c[0]), Completed(c[1]), Completed(c[2]);
    var xs := VoteIntents(c1, c2, c3);
    var v :| 0 <= v < 3 && !Hashable(Vote(v, Completed(c[v])).intent);
    assert !Hashable(xs[v]);
    assert Dispatch(Ensemble, c) == EnsembleClassify(c1, c2, c3) == Failure(UnhashableIn(xs));
  }
}
