/** The five classification strategies of `test_improvements.py`: four that
    make one oracle call each and differ only in their prompt, and an
    ensemble that takes three few-shot votes. */
module Strategies {
  import opened Wrappers
  import opened Json
  import opened Oracle
  import opened Counters

  /** The prompt of a one-call strategy. Prompt texts are not modelled. */
  datatype Prompt = BaselinePrompt | DifferentPrompt | FewShotPrompt | ChainOfThoughtPrompt

  datatype Strategy = OneCall(prompt: Prompt) | Ensemble

  /** The `"method"` tag a one-call strategy writes into its result, which is
      also its name on the command line. */
  function Tag(p: Prompt): string {
    match p
    case BaselinePrompt => "baseline"
    case DifferentPrompt => "different_prompt"
    case FewShotPrompt => "few_shot"
    case ChainOfThoughtPrompt => "chain_of_thought"
  }

  /** The `"method"` tag of the ensemble's result. */
  const EnsembleTag: string := "ensemble_few_shot"

  /** The key of `method_map` and the `--method` choice naming a strategy. */
  function Name(s: Strategy): string {
    match s
    case OneCall(p) => Tag(p)
    case Ensemble => "ensemble"
  }

  /** `--method`: one strategy, or `all` of them. */
  datatype Choice = All | Only(strategy: Strategy)

  /** argparse's `choices=[...]` check; anything else is rejected. */
  function ParseChoice(arg: string): Option<Choice> {
    if arg == "all" then Some(All)
    else if arg == "baseline" then Some(Only(OneCall(BaselinePrompt)))
    else if arg == "different_prompt" then Some(Only(OneCall(DifferentPrompt)))
    else if arg == "few_shot" then Some(Only(OneCall(FewShotPrompt)))
    else if arg == "chain_of_thought" then Some(Only(OneCall(ChainOfThoughtPrompt)))
    else if arg == "ensemble" then Some(Only(Ensemble))
    else None
  }

  /** Every strategy is selected by its own name, and `all` by "all". */
  lemma ParseChoiceNames(s: Strategy)
    ensures ParseChoice(Name(s)) == Some(Only(s))
    ensures ParseChoice("all") == Some(All)
  {
  }

  /** `methods_to_test`: the five strategies in a fixed order for `all`. */
  function MethodsToTest(c: Choice): (ms: seq<Strategy>)
    ensures c.Only? ==> ms == [c.strategy]
    ensures c.All? ==> |ms| == 5 && ms[0] == OneCall(BaselinePrompt)
    ensures forall i, j :: 0 <= i < j < |ms| ==> ms[i] != ms[j]
  {
    match c
    case All =>
      [OneCall(BaselinePrompt), OneCall(DifferentPrompt), OneCall(FewShotPrompt),
       OneCall(ChainOfThoughtPrompt), Ensemble]
    case Only(s) => [s]
  }

  /** `all` runs every strategy. */
  lemma AllRunsEveryStrategy(s: Strategy)
    ensures s in MethodsToTest(All)
  {
    match s
    case OneCall(p) => match p {
      case BaselinePrompt => assert MethodsToTest(All)[0] == s;
      case DifferentPrompt => assert MethodsToTest(All)[1] == s;
      case FewShotPrompt => assert MethodsToTest(All)[2] == s;
      case ChainOfThoughtPrompt => assert MethodsToTest(All)[3] == s;
    }
    case Ensemble => assert MethodsToTest(All)[4] == s;
  }

  /** One few-shot vote of the ensemble, tagged with its instance name. */
  datatype Instance = Instance(instance: string, intent: Json, tag: Option<string>, error: Option<string>)

  /** The dictionary a strategy hands back for one transcript. */
  datatype ClassificationResult =
    | Single(tag: string, intent: Json, error: Option<string>)
    | Voted(intent: Json, votes: Counts<Json>, individual: seq<Instance>)
    | Crashed(failure: string)
  {
    /** The `"intent"` entry; the runner's fallback records the sentinel. */
    function Intent(): Json {
      match this
      case Single(_, i, _) => i
      case Voted(i, _, _) => i
      case Crashed(_) => UnknownLabel
    }
  }

  /** A one-call strategy: whatever goes wrong becomes the sentinel with an
      `"error"` entry, and a reply without an `"intent"` key becomes the
      sentinel without one. */
  function ClassifyOnce(p: Prompt, o: CallOutcome): (r: ClassificationResult)
    ensures r.Single? && r.tag == Tag(p)
    ensures o.Raised? ==> r.intent == UnknownLabel && r.error == Some(o.message)
    ensures o.Replied? && o.reply.JObject? && "intent" !in o.reply.fields ==>
              r.intent == UnknownLabel && r.error.None?
    ensures o.Replied? && o.reply.JObject? && "intent" in o.reply.fields ==>
              r.intent == o.reply.fields["intent"] && r.error.None?
    ensures o.Replied? && !o.reply.JObject? ==>
              r.intent == UnknownLabel && r.error == Some(NoGetAttribute(o.reply))
    ensures r.error.None? <==> o.Replied? && o.reply.JObject?
  {
    match o
    case Raised(m) => Single(Tag(p), UnknownLabel, Some(m))
    case Replied(v) =>
      match IntentField(v)
      case Success(i) => Single(Tag(p), i, None)
      case Failure(m) => Single(Tag(p), UnknownLabel, Some(m))
  }

  /** How one of the ensemble's three futures ended: the few-shot call
      returned (with the oracle outcome it saw), or `future.result()` raised. */
  datatype SubCall = Completed(outcome: CallOutcome) | Interrupted(message: string)

  /** `f"few_shot_{i+1}"` for the vote at position `i` (0, 1 or 2). */
  function InstanceTag(i: nat): string
    requires i < 3
  {
    "few_shot_" + [('1' as int + i) as char]
  }

  /** The entry `individual_results[i]`. */
  function Vote(i: nat, c: SubCall): Instance
    requires i < 3
  {
    match c
    case Completed(o) =>
      var r := ClassifyOnce(FewShotPrompt, o);
      Instance(InstanceTag(i), r.intent, Some(r.tag), r.error)
    case Interrupted(m) => Instance(InstanceTag(i), UnknownLabel, None, Some(m))
  }

  /** The three vote labels, in submission order. */
  function VoteIntents(c1: SubCall, c2: SubCall, c3: SubCall): seq<Json> {
    [Vote(0, c1).intent, Vote(1, c2).intent, Vote(2, c3).intent]
  }

  /** Counting the votes `xs` with a `Counter` and taking `most_common(1)`:
      the tally counts every label exactly and sums to the number of votes,
      and the winner has a maximal count with no earlier entry as large. */
  function CountVotes(xs: seq<Json>, individual: seq<Instance>): (r: ClassificationResult)
    requires |xs| > 0
    ensures r.Voted? && r.individual == individual
    ensures Total(r.votes) == |xs|
    ensures forall k :: Lookup(r.votes, k) == Occurrences(xs, k)
    ensures Keys(r.votes) == Dedup(xs)
    ensures exists w :: 0 <= w < |r.votes| && IsWinner(r.votes, w, r.intent)
  {
    var votes := Tally(xs);
    TallySpec(xs);
    DedupSpec(xs);
    assert xs[0] in Dedup(xs);
    assert |Keys(votes)| == |votes|;
    var w := MostCommon(votes);
    assert IsWinner(votes, w, votes[w].0);
    Voted(votes[w].0, votes, individual)
  }

  /** The ensemble: three few-shot votes, counted with a `Counter`, and the
      `most_common(1)` label. Counting a list or dict label raises, which
      fails the whole strategy call. */
  function EnsembleClassify(c1: SubCall, c2: SubCall, c3: SubCall): (r: Result<ClassificationResult, string>)
    ensures var xs := VoteIntents(c1, c2, c3);
      r.Success? <==> Hashable(xs[0]) && Hashable(xs[1]) && Hashable(xs[2])
    ensures r.Success? ==> r.value == CountVotes(VoteIntents(c1, c2, c3), [Vote(0, c1), Vote(1, c2), Vote(2, c3)])
    ensures r.Failure? ==> r.error == UnhashableIn(VoteIntents(c1, c2, c3))
  {
    var xs := VoteIntents(c1, c2, c3);
    if Hashable(xs[0]) && Hashable(xs[1]) && Hashable(xs[2]) then
      Success(CountVotes(xs, [Vote(0, c1), Vote(1, c2), Vote(2, c3)]))
    else
      Failure(UnhashableIn(xs))
  }

  /** `votes[w]` carries `winner` with a maximal count, and every earlier
      entry has a strictly smaller count. */
  predicate IsWinner(votes: Counts<Json>, w: nat, winner: Json)
    requires w < |votes|
  {
    && votes[w].0 == winner
    && (forall i :: 0 <= i < |votes| ==> votes[i].1 <= votes[w].1)
    && (forall i :: 0 <= i < w ==> votes[i].1 < votes[w].1)
  }

  /** A successful ensemble result keeps the three votes in submission
      order, tagged `few_shot_1` to `few_shot_3`, and its tally sums to 3. */
  lemma EnsembleShape(c1: SubCall, c2: SubCall, c3: SubCall)
    requires EnsembleClassify(c1, c2, c3).Success?
    ensures var r := EnsembleClassify(c1, c2, c3).value;
      && r.Voted?
      && |r.individual| == 3
      && r.individual[0].instance == "few_shot_1"
      && r.individual[1].instance == "few_shot_2"
      && r.individual[2].instance == "few_shot_3"
      && (forall i :: 0 <= i < 3 ==> r.individual[i].intent == VoteIntents(c1, c2, c3)[i])
      && Total(r.votes) == 3
  {
  }

  /** The ensemble label is one of the votes, no label got more votes, and
      of the labels that got as many it is the one voted first. */
  lemma EnsembleVote(c1: SubCall, c2: SubCall, c3: SubCall)
    requires EnsembleClassify(c1, c2, c3).Success?
    ensures var xs := VoteIntents(c1, c2, c3); var top := EnsembleClassify(c1, c2, c3).value.intent;
      && top in xs
      && (forall k :: Occurrences(xs, k) <= Occurrences(xs, top))
      && (forall k :: k in xs && k != top && Occurrences(xs, k) == Occurrences(xs, top) ==>
            FirstIndex(xs, top) < FirstIndex(xs, k))
  {
    MostCommonFirstSeen(VoteIntents(c1, c2, c3));
  }

  /** A few-shot call whose reply names `intent`. */
  function Says(intent: Json): SubCall {
    Completed(Replied(JObject(map["intent" := intent])))
  }

  /** Votes [A, A, B] give A with the tally {A: 2, B: 1}. */
  lemma EnsembleMajorityExample(a: Json, b: Json)
    requires Hashable(a) && Hashable(b) && a != b
    ensures var r := EnsembleClassify(Says(a), Says(a), Says(b));
      r.Success? && r.value.intent == a && r.value.votes == [(a, 2), (b, 1)]
  {
    var xs := VoteIntents(Says(a), Says(a), Says(b));
    assert xs == [] + [a] + [a] + [b];
    TallySnoc([], a);
    TallySnoc([a], a);
    TallySnoc([a, a], b);
    var t := [(a, 2), (b, 1)];
    assert Tally(xs) == t;
    assert MostCommon(t) == 0;
  }

  /** Votes [A, B, C], all different, give A: the tie goes to the first vote. */
  lemma EnsembleTieExample(a: Json, b: Json, c: Json)
    requires Hashable(a) && Hashable(b) && Hashable(c) && a != b && b != c && a != c
    ensures var r := EnsembleClassify(Says(a), Says(b), Says(c));
      r.Success? && r.value.intent == a && r.value.votes == [(a, 1), (b, 1), (c, 1)]
  {
    var xs := VoteIntents(Says(a), Says(b), Says(c));
    assert xs == [] + [a] + [b] + [c];
    TallySnoc([], a);
    TallySnoc([a], b);
    TallySnoc([a, b], c);
    var t := [(a, 1), (b, 1), (c, 1)];
    assert Bump([(a, 1)], b) == [(a, 1), (b, 1)];
    assert [(a, 1), (b, 1)][1..] == [(b, 1)];
    assert Bump([(b, 1)], c) == [(b, 1), (c, 1)];
    assert Bump([(a, 1), (b, 1)], c) == [(a, 1)] + Bump([(b, 1)], c);
    assert Tally(xs) == t;
    assert MostCommon(t) == 0;
  }

  /** A failed few-shot call and a future that raised both vote for the
      sentinel, with their error kept, and together they win the vote. */
  lemma EnsembleUnknownWins(m1: string, m2: string, c3: SubCall)
    requires Hashable(Vote(2, c3).intent)
    ensures var r := EnsembleClassify(Completed(Raised(m1)), Interrupted(m2), c3);
      && r.Success?
      && r.value.intent == UnknownLabel
      && r.value.individual[0].error == Some(m1)
      && r.value.individual[1].error == Some(m2)
  {
    var c1, c2 := Completed(Raised(m1)), Interrupted(m2);
    var u := UnknownLabel;
    var v := Vote(2, c3).intent;
    assert Vote(0, c1).intent == u && Vote(0, c1).error == Some(m1);
    assert Vote(1, c2).intent == u && Vote(1, c2).error == Some(m2);
    var xs := VoteIntents(c1, c2, c3);
    assert xs == [] + [u] + [u] + [v];
    TwoOfThree(u, v);
  }

  /** Two votes out of three for `u` make `u` the most common label. */
  lemma TwoOfThree(u: Json, v: Json)
    ensures var t := Tally([u, u, v]); |t| > 0 && t[MostCommon(t)].0 == u
  {
    assert [u, u, v] == [] + [u] + [u] + [v];
    TallySnoc([], u);
    TallySnoc([u], u);
    TallySnoc([u, u], v);
    if v == u {
      assert Tally([u, u, v]) == [(u, 3)];
    } else {
      var t := [(u, 2), (v, 1)];
      assert Tally([u, u, v]) == t;
      assert MostCommon(t) == 0;
    }
  }

  /** How many oracle calls a strategy makes for one transcript. */
  function CallsNeeded(s: Strategy): nat {
    if s.Ensemble? then 3 else 1
  }

  /** `classify_func(transcript)` for the strategy picked from `method_map`,
      given the outcomes of the oracle calls it makes, in submission order.
      A failure is an exception escaping the strategy. */
  function Dispatch(s: Strategy, script: seq<CallOutcome>): Result<ClassificationResult, string>
    requires |script| == CallsNeeded(s)
  {
    match s
    case OneCall(p) => Success(ClassifyOnce(p, script[0]))
    case Ensemble => EnsembleClassify(Completed(script[0]), Completed(script[1]), Completed(script[2]))
  }
}
