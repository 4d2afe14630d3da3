/** The classifier service's pass over the campaign threads
    (`cmd/classifier/main.go`) as a transition of an abstract store: thread
    statuses and the inserted classification rows. The queries, the
    classifier and the writes are inputs: an `Env` says what each of them
    answers. */
module ThreadClassifier {
  import opened Wrappers
  import opened Times
  import opened NullTimes
  import opened VoiceClassifier

  /** The two thread statuses the service reads and writes. */
  const Unclassified: string := "voice_call_unclassified"
  const Classified: string := "voice_call_classified"

  /** A voice call as `ListVoiceCallsForThread` returns it (the parts the
      classifier is given; `CalledAt` only shapes the prompt). */
  datatype VoiceCall = VoiceCall(id: string, transcript: string, timeZone: string)

  /** An inserted classification row (its random ID left out). */
  datatype Classification = Classification(threadId: string, intent: string, interestedTime: NullTime, callBackTime: NullTime)

  /** The database as far as the service touches it. */
  datatype Store = Store(status: map<string, string>, classifications: seq<Classification>)

  /** What the database and the classifier answer: the voice calls of a
      thread, the classification of a call, and whether an insert or a status
      update fails. */
  datatype Env = Env(
    listCalls: string -> Result<seq<VoiceCall>, string>,
    classify: VoiceCall -> Result<ClassifyResponse, string>,
    insertError: Classification -> Option<string>,
    updateError: string -> Option<string>)

  /** The store after a step and the error the step returned, if any. */
  datatype Step = Step(store: Store, err: Option<string>)

  /** The row `classifyVoiceCall` inserts for a classifier response. */
  function RowFor(threadId: string, result: ClassifyResponse): (row: Classification)
    ensures row.threadId == threadId && row.intent == result.intent
    ensures row.interestedTime.valid <==> result.interestedTime.Some?
    ensures row.callBackTime.valid <==> result.callBackTime.Some?
    ensures FromNullTime(row.interestedTime) == result.interestedTime
    ensures FromNullTime(row.callBackTime) == result.callBackTime
  {
    FromToNullTime(result.interestedTime);
    FromToNullTime(result.callBackTime);
    Classification(threadId, result.intent, ToNullTime(result.interestedTime), ToNullTime(result.callBackTime))
  }

  /** The call is classified and its row inserted without error. */
  predicate CallOk(env: Env, threadId: string, call: VoiceCall) {
    env.classify(call).Success? && env.insertError(RowFor(threadId, env.classify(call).value)).None?
  }

  /** The error of a call that is not `CallOk`. */
  function CallError(env: Env, threadId: string, call: VoiceCall): string
    requires !CallOk(env, threadId, call)
  {
    match env.classify(call)
    case Failure(e) => e
    case Success(result) => env.insertError(RowFor(threadId, result)).value
  }

  /** The rows of calls that all went through. */
  function Rows(env: Env, threadId: string, calls: seq<VoiceCall>): seq<Classification>
    requires forall i :: 0 <= i < |calls| ==> CallOk(env, threadId, calls[i])
  {
    seq(|calls|, i requires 0 <= i < |calls| && CallOk(env, threadId, calls[i]) =>
      RowFor(threadId, env.classify(calls[i]).value))
  }

  /** `classifyVoiceCall`: one classification, one insert. */
  function ClassifyVoiceCall(env: Env, store: Store, threadId: string, call: VoiceCall): (s: Step)
    ensures s.store.status == store.status
    ensures s.err.None? <==> CallOk(env, threadId, call)
    ensures s.err.None? ==> s.store.classifications == store.classifications + [RowFor(threadId, env.classify(call).value)]
    ensures s.err.Some? ==> s.store == store && s.err.value == CallError(env, threadId, call)
  {
    match env.classify(call)
    case Failure(e) => Step(store, Some(e))
    case Success(result) =>
      var row := RowFor(threadId, result);
      match env.insertError(row)
      case Some(e) => Step(store, Some(e))
      case None => Step(store.(classifications := store.classifications + [row]), None)
  }

  /** The loop over a thread's voice calls: it stops at the first call that
      fails. */
  function ProcessCalls(env: Env, store: Store, threadId: string, calls: seq<VoiceCall>): Step
    decreases |calls|
  {
    if |calls| == 0 then Step(store, None)
    else
      var s := ClassifyVoiceCall(env, store, threadId, calls[0]);
      if s.err.Some? then s else ProcessCalls(env, s.store, threadId, calls[1..])
  }

  /** How many calls go through before the first that does not. */
  function OkPrefix(env: Env, threadId: string, calls: seq<VoiceCall>): (k: nat)
    ensures k <= |calls|
    ensures forall i :: 0 <= i < k ==> CallOk(env, threadId, calls[i])
    ensures k < |calls| ==> !CallOk(env, threadId, calls[k])
  {
    if |calls| == 0 || !CallOk(env, threadId, calls[0]) then 0
    else 1 + OkPrefix(env, threadId, calls[1..])
  }

  /** The loop never touches a status; it inserts one row per call, in
      order, up to the first call that fails, and returns that call's
      error. Rows inserted before the failure are not rolled back. */
  lemma {:induction false} ProcessCallsSpec(env: Env, store: Store, threadId: string, calls: seq<VoiceCall>)
    decreases |calls|
    ensures var s := ProcessCalls(env, store, threadId, calls);
      var k := OkPrefix(env, threadId, calls);
      s.store.status == store.status &&
      (s.err.None? <==> k == |calls|) &&
      (s.err.Some? ==> s.err == Some(CallError(env, threadId, calls[k]))) &&
      s.store.classifications == store.classifications + Rows(env, threadId, calls[..k])
  {
    if |calls| > 0 {
      var s := ClassifyVoiceCall(env, store, threadId, calls[0]);
      if s.err.Some? {
        assert Rows(env, threadId, calls[..0]) == [];
      } else {
        var rest := calls[1..];
        ProcessCallsSpec(env, s.store, threadId, rest);
        var k := OkPrefix(env, threadId, rest);
        assert OkPrefix(env, threadId, calls) == k + 1;
        assert calls[..k + 1][1..] == rest[..k];
        RowsCons(env, threadId, calls[..k + 1]);
      }
    }
  }

  lemma RowsCons(env: Env, threadId: string, calls: seq<VoiceCall>)
    requires |calls| > 0
    requires forall i :: 0 <= i < |calls| ==> CallOk(env, threadId, calls[i])
    ensures Rows(env, threadId, calls) == [RowFor(threadId, env.classify(calls[0]).value)] + Rows(env, threadId, calls[1..])
  {
  }

  /** `UPDATE ... SET status WHERE id`: a thread that is not there is left
      alone. */
  function SetStatus(store: Store, threadId: string, status: string): (s: Store)
    ensures s.classifications == store.classifications
    ensures s.status.Keys == store.status.Keys
    ensures threadId in store.status ==> s.status[threadId] == status
    ensures forall u :: u in store.status && u != threadId ==> s.status[u] == store.status[u]
  {
    if threadId in store.status then store.(status := store.status[threadId := status]) else store
  }

  /** `processThread`. */
  function ProcessThread(env: Env, store: Store, threadId: string): Step {
    match env.listCalls(threadId)
    case Failure(e) => Step(store, Some(e))
    case Success(calls) =>
      if |calls| == 0 then Step(store, None)
      else
        var s := ProcessCalls(env, store, threadId, calls);
        if s.err.Some? then s
        else
          match env.updateError(threadId)
          case Some(e) => Step(s.store, Some(e))
          case None => Step(SetStatus(s.store, threadId, Classified), None)
  }

  /** Everything a thread needs to be marked classified: its calls are
      listed, there is at least one, each is classified and inserted, and
      the status update succeeds. */
  predicate ThreadGoesThrough(env: Env, threadId: string) {
    && env.listCalls(threadId).Success?
    && |env.listCalls(threadId).value| > 0
    && (forall i :: 0 <= i < |env.listCalls(threadId).value| ==> CallOk(env, threadId, env.listCalls(threadId).value[i]))
    && env.updateError(threadId).None?
  }

  /** A thread moves to `voice_call_classified` exactly when all of its
      calls went through (and then one row per call was inserted); any other
      outcome leaves every status as it was. Only the thread's own status
      can change, and only rows for that thread are added. */
  lemma ProcessThreadSpec(env: Env, store: Store, threadId: string)
    ensures var s := ProcessThread(env, store, threadId);
      s.store.status.Keys == store.status.Keys &&
      (forall u :: u in store.status && u != threadId ==> s.store.status[u] == store.status[u]) &&
      (s.store.status != store.status ==> ThreadGoesThrough(env, threadId))
    ensures var s := ProcessThread(env, store, threadId);
      ThreadGoesThrough(env, threadId) ==>
        s.err.None? &&
        (threadId in store.status ==> s.store.status[threadId] == Classified) &&
        s.store.classifications == store.classifications + Rows(env, threadId, env.listCalls(threadId).value)
    ensures var s := ProcessThread(env, store, threadId);
      |store.classifications| <= |s.store.classifications| &&
      s.store.classifications[..|store.classifications|] == store.classifications &&
      forall j :: |store.classifications| <= j < |s.store.classifications| ==> s.store.classifications[j].threadId == threadId
  {
    match env.listCalls(threadId)
    case Failure(_) =>
    case Success(calls) =>
      if |calls| > 0 {
        ProcessCallsSpec(env, store, threadId, calls);
        var k := OkPrefix(env, threadId, calls);
        RowsOfThread(env, threadId, calls[..k]);
        if k == |calls| {
          assert calls[..k] == calls;
        }
      }
  }

  lemma RowsOfThread(env: Env, threadId: string, calls: seq<VoiceCall>)
    requires forall i :: 0 <= i < |calls| ==> CallOk(env, threadId, calls[i])
    ensures forall j :: 0 <= j < |Rows(env, threadId, calls)| ==> Rows(env, threadId, calls)[j].threadId == threadId
  {
  }

  /** A thread without voice calls is reported as a success and keeps its
      status. */
  lemma NoCallsNoChange(env: Env, store: Store, threadId: string)
    requires env.listCalls(threadId) == Success([])
    ensures ProcessThread(env, store, threadId) == Step(store, None)
  {
  }

  /** The loop of `processUnclassifiedThreads`: each listed thread in turn,
      its error logged and dropped. */
  function ProcessAll(env: Env, store: Store, threads: seq<string>): Store
    decreases |threads|
  {
    if |threads| == 0 then store
    else ProcessAll(env, ProcessThread(env, store, threads[0]).store, threads[1..])
  }

  /** `processUnclassifiedThreads`, given what listing the unclassified
      threads answered: a listing error ends the pass with that error and no
      change. Otherwise the pass succeeds, and every listed thread whose calls
      all go through ends `voice_call_classified`. Statuses change only for
      listed threads and only to that status, no thread appears or
      disappears, and rows are only added. */
  function ProcessUnclassifiedThreads(env: Env, store: Store, listing: Result<seq<string>, string>): (s: Step)
    ensures listing.Failure? ==> s == Step(store, Some(listing.error))
    ensures listing.Success? ==> s.err.None?
    ensures listing.Success? ==>
      && s.store.status.Keys == store.status.Keys
      && (forall u :: u in store.status && s.store.status[u] != store.status[u] ==>
            u in listing.value && s.store.status[u] == Classified)
      && (forall t :: t in listing.value && t in store.status && ThreadGoesThrough(env, t) ==>
            s.store.status[t] == Classified)
      && |store.classifications| <= |s.store.classifications|
      && s.store.classifications[..|store.classifications|] == store.classifications
  {
    match listing
    case Failure(e) => Step(store, Some(e))
    case Success(threads) =>
      PassSpec(env, store, threads);
      ListedThreadsClassified(env, store, threads);
      Step(ProcessAll(env, store, threads), None)
  }

  /** `ListThreadsByStatus(ctx, "voice_call_unclassified")` answered from
      the store: exactly the threads whose status is unclassified, in an
      order the database chooses. */
  predicate ListsUnclassified(store: Store, threads: seq<string>) {
    && (forall t :: t in threads ==> t in store.status && store.status[t] == Unclassified)
    && (forall t :: t in store.status && store.status[t] == Unclassified ==> t in threads)
  }

  /** With the listing the service asks for, a pass moves a thread only from
      `voice_call_unclassified` to `voice_call_classified`: every other
      status (`not_started`, an already classified thread) is kept, and every
      unclassified thread whose calls all go through ends classified. */
  lemma PassFromUnclassified(env: Env, store: Store, listing: Result<seq<string>, string>)
    requires listing.Success? ==> ListsUnclassified(store, listing.value)
    ensures var after := ProcessUnclassifiedThreads(env, store, listing).store;
      && after.status.Keys == store.status.Keys
      && (forall u :: u in store.status && after.status[u] != store.status[u] ==>
            store.status[u] == Unclassified && after.status[u] == Classified)
      && (forall u :: u in store.status && store.status[u] != Unclassified ==>
            after.status[u] == store.status[u])
      && (listing.Success? ==> forall u :: u in store.status && store.status[u] == Unclassified && ThreadGoesThrough(env, u) ==>
            after.status[u] == Classified)
  {
  }

  /** Every listed thread whose calls all go through ends the pass
      `voice_call_classified`, whatever the other threads do. */
  lemma {:induction false} ListedThreadsClassified(env: Env, store: Store, threads: seq<string>)
    ensures forall t :: t in threads && t in store.status && ThreadGoesThrough(env, t) ==>
      t in ProcessAll(env, store, threads).status && ProcessAll(env, store, threads).status[t] == Classified
    decreases |threads|
  {
    if |threads| > 0 {
      var t0 := threads[0];
      var mid := ProcessThread(env, store, t0).store;
      var after := ProcessAll(env, store, threads);
      assert after == ProcessAll(env, mid, threads[1..]);
      ProcessThreadSpec(env, store, t0);
      PassSpec(env, mid, threads[1..]);
      ListedThreadsClassified(env, mid, threads[1..]);
      forall t | t in threads && t in store.status && ThreadGoesThrough(env, t)
        ensures t in after.status && after.status[t] == Classified
      {
        if t != t0 {
          assert t in threads[1..];
        }
      }
    }
  }

  /** A thread's error never stops the pass: the thread listed last is
      processed on whatever the earlier threads left behind, failed or not. */
  lemma {:induction false} LaterThreadsStillProcessed(env: Env, store: Store, threads: seq<string>, last: string)
    ensures ProcessAll(env, store, threads + [last]) ==
      ProcessThread(env, ProcessAll(env, store, threads), last).store
    decreases |threads|
  {
    if |threads| > 0 {
      assert (threads + [last])[1..] == threads[1..] + [last];
      LaterThreadsStillProcessed(env, ProcessThread(env, store, threads[0]).store, threads[1..], last);
    }
  }

  /** Over a whole pass, statuses change only for listed threads and only
      to `voice_call_classified`, no thread appears or disappears, and rows
      are only ever added. */
  lemma {:induction false} PassSpec(env: Env, store: Store, threads: seq<string>)
    ensures var after := ProcessAll(env, store, threads);
      after.status.Keys == store.status.Keys &&
      (forall u :: u in store.status && after.status[u] != store.status[u] ==> u in threads && after.status[u] == Classified) &&
      |store.classifications| <= |after.classifications| &&
      after.classifications[..|store.classifications|] == store.classifications
    decreases |threads|
  {
    if |threads| > 0 {
      var t := threads[0];
      var mid := ProcessThread(env, store, t).store;
      ProcessThreadSpec(env, store, t);
      PassSpec(env, mid, threads[1..]);
      var after := ProcessAll(env, store, threads);
      assert after == ProcessAll(env, mid, threads[1..]);
      forall u | u in store.status && after.status[u] != store.status[u]
        ensures u in threads && after.status[u] == Classified
      {
        if after.status[u] == mid.status[u] {
          assert mid.status[u] != store.status[u];
          assert u == t;
          assert ThreadGoesThrough(env, t);
        } else {
          assert u in threads[1..];
        }
      }
      assert after.classifications[..|store.classifications|]
        == after.classifications[..|mid.classifications|][..|store.classifications|];
    }
  }
}
