# Voice-call intent classification, modelled in Dafny

This project models the decision logic that surrounds an external
intent-classification oracle for call transcripts. It covers four programs:

- **The evaluation harness** (`test_improvements.py`):
  - Five strategies. Four make one oracle call each. The fifth is an ensemble that takes three few-shot votes and keeps the `Counter.most_common(1)` winner.
  - A runner. It fans one task per transcript out to a pool and puts the results back in corpus order.
  - Accuracy scoring against the human labels of the CSV file.
  - The final comparison against the baseline.
- **The batch script** (`classify_logs.py`):
  - A fail-safe oracle call per transcript.
  - Transcript extraction from CSV rows or from JSON/plain-text lines.
  - A `Counter` tally of the labels.
  - A summary sorted by count.
- **The Go classifier** (`Classifier.Classify`). It makes one oracle call for the intent. For `voice_interested` and `voice_wants_call_back` only, it makes a second call for an appointment time. It places that time in the call's time zone on the field of its intent, and it returns every failure as an error.
- **The Go classification service** (`cmd/classifier/main.go`):
  - It lists the unclassified threads and classifies and inserts every voice call of each thread.
  - It marks a thread `voice_call_classified` only when all of its calls went through.
  - The nullable-time helpers of `pkg/db/utils.go` belong to it.

The oracle is never modelled. An oracle call is an input: Python sees a raised exception or a decoded reply (`Oracle.CallOutcome`), and Go sees an error or the reply text (`VoiceClassifier.Completion`). The same holds for:

- `json.loads` and `encoding/json`: an abstract partial parser, `Json.Parser`.
- `str()` of a decoded value.
- `time.LoadLocation` and `time.Parse`.
- The database queries and writes. The voice calls of a thread, the classification of a call and the outcome of an insert or a status update are functions in `ThreadClassifier.Env`. The thread listing `ListThreadsByStatus` is a separate input of `ThreadClassifier.ProcessUnclassifiedThreads`: its error or the listed threads. `ThreadClassifier.ListsUnclassified` says when that list is exactly the store's `voice_call_unclassified` threads, in any order.
- The order in which pool tasks complete: any permutation of the task indices.

Module map:

| file | module | what it holds |
|---|---|---|
| wrappers.dfy | Wrappers | `Option`, `Result` |
| json.dfy | Json | decoded JSON values, hashability, `dict.get` |
| text.dfy | Text | `str.strip`, `split('\n')`, `join`, substring test, the `.csv` suffix test |
| intents.dfy | Intents | the ten intent labels |
| counters.dfy | Counters | `collections.Counter`: insertion-ordered tally, `most_common(1)`, stable sort by count |
| oracle.dfy | Oracle | one Python oracle round trip |
| strategies.dfy | Strategies | the five strategies and strategy selection |
| runner.dfy | Runner | `run_method` |
| csvinput.dfy | CsvInput | transcripts from CSV rows (shared by both scripts) |
| scoring.dfy | Scoring | `evaluate_accuracy`, ground truth, the final comparison |
| logreader.dfy | LogReader | `read_log_file` |
| batch.dfy | Batch | `classify_transcript`, the tally loop, `generate_summary` |
| times.dfy | Times | the part of Go's `time.Time` that is kept |
| nulltimes.dfy | NullTimes | `FromNullTime`, `ToNullTime` |
| voiceclassifier.dfy | VoiceClassifier | `Classifier.Classify` |
| threads.dfy | ThreadClassifier | `processUnclassifiedThreads`, `processThread`, `classifyVoiceCall` |

## Model

| member | source | states |
|---|---|---|
| Strategies.ClassifyOnce | test_improvements.py:63-75 | A one-call strategy tags its result with its own name. An oracle or parse failure gives `voice_unknown` with the exception's text. A reply that is not a dict gives `voice_unknown` with the `AttributeError` text `'<type>' object has no attribute 'get'`. A dict reply gives its `intent`, or `voice_unknown` without one, and no error. The error is absent exactly when a dict reply came back. |
| Strategies.MethodsToTest | test_improvements.py:363 | `--method all` runs the five strategies, baseline first and all distinct. A single choice runs exactly that strategy. |
| Strategies.ParseChoiceNames | test_improvements.py:341-342 | Every strategy is selected by its own name, and `all` selects all of them. |
| Strategies.AllRunsEveryStrategy | test_improvements.py:363 | Every strategy is among those `all` runs. |
| Strategies.CountVotes | test_improvements.py:254-256 | The vote tally counts every label exactly and sums to the number of votes. Its keys are the labels in first-seen order. Some tally entry is a winner: its count is maximal and every earlier entry's count is strictly smaller. |
| Strategies.EnsembleClassify | test_improvements.py:234-263 | The ensemble succeeds exactly when all three vote labels are hashable. It then returns the counted votes with the three individual results. Otherwise the `Counter` raises `unhashable type: '<type>'`, naming the type of the first list or dict label in vote order. |
| Json.FirstUnhashable | test_improvements.py:254 | The first unhashable element of a sequence: it is unhashable, and every element before it is hashable. This is the element `Counter` raises on. |
| Strategies.EnsembleShape | test_improvements.py:244-262 | The ensemble result holds exactly three individual results, tagged `few_shot_1`..`few_shot_3` in submission order and carrying the three vote labels. The tally sums to 3. |
| Strategies.EnsembleVote | test_improvements.py:254-256 | The ensemble label is one of the votes and no label has more votes. Among equally voted labels it is the one voted first. |
| Strategies.EnsembleMajorityExample | test_improvements.py:254-256 | Votes [A, A, B] give A, with the tally [(A, 2), (B, 1)]. |
| Strategies.EnsembleTieExample | test_improvements.py:255-256 | Votes [A, B, C], all different, give A, with each counted once. |
| Strategies.EnsembleUnknownWins | test_improvements.py:246-251 | A failed sub-call and a future that raised each vote `voice_unknown` with their error kept, and `voice_unknown` then wins. |
| Strategies.TwoOfThree | test_improvements.py:255-256 | Two votes out of three for a label make it the most common. |
| Runner.Recover | test_improvements.py:290-304 | A task that returned keeps its result. A task that raised is recorded as `voice_unknown` with the error. |
| Runner.Collect | test_improvements.py:287-304 | Consuming the completions in any order that is a permutation of the task indices files every index, each under its own 1-based index and transcript with that task's result. |
| Runner.RunMethod | test_improvements.py:265-306 | The run has one record per transcript. Record i has `transcript_index` i+1, transcript i and that task's result, whatever the completion order. The run equals a value that does not mention the order. |
| Runner.FailingOracleGivesUnknown | test_improvements.py:72-75 | If every oracle call for a transcript fails, its label is `voice_unknown`. A one-call strategy records the error on the result; the ensemble records it on each of its three votes. |
| Runner.RaisingStrategyStillRecorded | test_improvements.py:298-304 | Whenever some vote of an ensemble task is a list or a dict, the task raises, and it still yields the record for its own index and transcript. That record is `voice_unknown` with the `unhashable type` error of the first such vote. |
| CsvInput.CsvTranscriptsSpec | test_improvements.py:309-318 | Exactly the rows whose `transcript` cell is present and non-empty yield a transcript, one each, in row order. |
| CsvInput.AllKept | test_improvements.py:309-318 | With no empty transcript cell, transcript k is row k's cell. |
| Scoring.CountHitsSpec | test_improvements.py:326-332 | The running count of hits is the number of records whose intent equals their label, and never exceeds the records seen. |
| Scoring.AccuracyBounds | test_improvements.py:334 | A percentage of hits lies in [0, 100]. |
| Scoring.EvaluateAccuracy | test_improvements.py:321-334 | A record whose index has no label raises `KeyError`, and only then. Otherwise the score counts the records whose intent equals the label and totals all records. The accuracy is `correct / total * 100`, or 0 for no records, and lies in [0, 100]. |
| Scoring.Numbered | test_improvements.py:358-359 | Labels numbered from 1: keys 1..n, key k holding the k-th label. |
| Scoring.LoadGroundTruth | test_improvements.py:355-359 | As written: labels keyed 1..(number of rows), key k holding row k's label, over every row including those without a transcript. A row without the label column raises `KeyError`. |
| Scoring.AlignedGroundTruth | test_improvements.py:355-359 | The corrected ground truth exists exactly when every row has the label column. |
| Scoring.AlignedGroundTruthSpec | test_improvements.py:352-359 | Corrected: key k+1 holds the label of the very row transcript k was read from, and the keys are exactly 1..(number of transcripts). |
| Scoring.GroundTruthAlignedWithoutEmptyRows | test_improvements.py:352-359 | When no row has an empty transcript, the as-written ground truth equals the corrected one and transcript k is graded against row k's label. |
| Scoring.GroundTruthMisaligned | test_improvements.py:352-359 | Rows ("", voice_interested) and ("hello", voice_voice_mail): the one transcript "hello" gets index 1. As written, index 1 holds the other row's label `voice_interested`; corrected, it holds `voice_voice_mail`. |
| Scoring.Evaluate | test_improvements.py:352-376 | Corrected: reading, running and scoring a strategy over a CSV file, with aligned labels. It fails only when a row lacks the label column. The score's total is the number of transcripts, and its count is the number of transcripts whose predicted intent equals the label on their own row. |
| Scoring.EvaluateAsWritten | test_improvements.py:352-376 | As written: the ground truth is numbered over every row. It fails exactly when a row lacks the label column, so no transcript ever misses a label. The score's count is the number of transcripts k whose predicted intent equals the label of row k. With no skipped row, that count is the aligned one. |
| Scoring.HitAsWritten | test_improvements.py:326-332 | As written, record k is a hit exactly when its intent equals the label of row k. |
| Scoring.BaselineAt | test_improvements.py:411 | Finds the baseline's summary: the first entry for the baseline strategy. |
| Scoring.FinalComparison | test_improvements.py:403-412 | The comparison is produced exactly when more than one strategy ran. It has one row per strategy, in run order, with accuracy and duration unchanged. The baseline row is noted as the baseline and only it. Every other row carries its accuracy minus the baseline's. |
| Scoring.AllComparable | test_improvements.py:363-412 | Running `all` gives summaries with distinct strategies that the comparison accepts, with the baseline row first. |
| Counters.TallySpec | classify_logs.py:179-186 | A `Counter` fed a sequence has the distinct items as keys in first-seen order. Each key's count is its number of occurrences, every count is at least 1, and the counts sum to the length. |
| Counters.MostCommon | test_improvements.py:256 | `most_common(1)` picks an entry with a maximal count, and no entry before it has as large a count. |
| Counters.MostCommonFirstSeen | test_improvements.py:254-256 | The most common item of a non-empty sequence occurs in it and no item occurs more often. Every other item that occurs as often first occurs later. |
| Counters.SortByCountDescSpec | classify_logs.py:125 | `sorted(items, key=count, reverse=True)` gives counts that never increase. It is a permutation of the items, and items of equal count keep their order (the sort is stable). |
| Counters.SortByCountDescTotal | classify_logs.py:125 | Sorting keeps the sum of the counts. |
| Counters.DedupSpec | classify_logs.py:186 | The keys of a tally are exactly the items seen, each once, ordered by first occurrence. |
| Text.Strip | classify_logs.py:91 | `strip()` removes leading and trailing white space only: a middle slice with blank ends that neither begins nor ends with white space. |
| Text.StripEmptyIffBlank | classify_logs.py:95-97 | A line strips to nothing exactly when it is blank. |
| Text.SplitJoin | classify_logs.py:94 | Joining newline-free pieces with `\n` and splitting again gives the pieces back. |
| Text.JoinSplit | classify_logs.py:94 | Splitting on `\n` and joining again gives the text back. |
| LogReader.ExtractLine | classify_logs.py:99-111 | A line that is not JSON is kept as it is. For an object, `transcript` is preferred over `message`, which is preferred over `str()` of the whole object. A string is kept unless it contains `transcript` or `message`, in which case indexing it raises `string indices must be integers`. A list raises `list indices must be integers or slices, not str` exactly when it holds either key string, and is otherwise rendered with `str()`. `null`, numbers and booleans raise `argument of type '<type>' is not iterable`. |
| LogReader.NonBlankIndices | classify_logs.py:94-97 | The positions of the lines the loop does not skip: each is a position of the input. |
| LogReader.NonBlankIndicesSpec | classify_logs.py:94-97 | The kept positions are strictly increasing, and a line's position is kept exactly when the line is not blank. |
| LogReader.NonBlank | classify_logs.py:94-97 | One visited line per non-blank input line. Each is stripped and none is empty. |
| LogReader.NonBlankSpec | classify_logs.py:94-97 | The k-th visited line is the k-th non-blank input line, stripped. |
| LogReader.VisitedAllOk | classify_logs.py:94-111 | If every non-blank line extracts, the text branch succeeds. |
| LogReader.VisitedValues | classify_logs.py:94-111 | A successful text branch gives one transcript per non-blank line, in order: the one that line extracts to once stripped. |
| LogReader.VisitedFirstError | classify_logs.py:94-111 | A failing text branch returns the error of a non-blank line, and every non-blank line before it extracts. |
| LogReader.ReadCsvRows | classify_logs.py:77-87 | One transcript per row with a non-empty `transcript` cell, in row order, each being that row's cell. |
| LogReader.ExtractAll | classify_logs.py:94-111 | The text branch succeeds exactly when every visited line does. It then gives one transcript per line in order; otherwise it gives the error of the first line that raises. |
| LogReader.ReadLogFile | classify_logs.py:74-113 | A path ending in `.csv` (any case) always succeeds: transcript k is the cell of the k-th row with a non-empty `transcript`. Any other file succeeds exactly when every visited line extracts. Transcript k is then what the k-th visited line extracts to. On failure it returns the error of the first line that raises. The visited lines are those that `NonBlankSpec` characterises. |
| LogReader.PlainTextRoundTrip | classify_logs.py:90-111 | Stripped, non-empty, non-JSON lines written one per line are read back as exactly those lines, in order. |
| Batch.ClassifyTranscript | classify_logs.py:48-71 | Classifying never raises. A failed call, a non-dict reply and a reply without `intent` all give `voice_unknown`; otherwise the reply's `intent` is returned. |
| Batch.SameLabelAsHarness | classify_logs.py:66-71 | The batch script and each one-call harness strategy give the same label for the same oracle outcome. |
| Batch.ClassifyAll | classify_logs.py:178-193 | The pass succeeds exactly when every label is hashable. Each transcript then has one result, numbered 1..N in input order, with its label. The tally equals a `Counter` of the labels, counts each label's occurrences, and sums to N. |
| Batch.GenerateSummary | classify_logs.py:116-146 | The header reports the total passed in. The lines are the tally in non-increasing count order, a permutation with equal counts kept in first-seen order, and the same sum. Each line's percentage is count / total * 100. A non-empty tally with total 0 divides by zero, and a `None` label cannot be formatted. |
| Batch.SummaryOfPass | classify_logs.py:179-196 | After a completed pass the summary's header count and the sum of its lines are the number of transcripts. It fails only if some label is `None`, and never divides by zero. |
| Batch.ClassifyLog | classify_logs.py:166-196 | A read error ends the run with that error. A readable log succeeds exactly when every label is hashable and none is `None`. A list or dict label raises `unhashable type` for the first such label, and a `None` label raises `NoneType.__format__`. On success the results are numbered 1..N over the transcripts read, and the tally is the `Counter` of the labels. The summary is `generate_summary` of that tally over N, reporting N, with line counts summing to N. |
| Intents.LabelRoundTrip | pkg/common/classifications.go:7-18 | The ten labels are distinct, and each spelling is recognised as its own intent. |
| NullTimes.FromNullTime | pkg/db/utils.go:8-13 | The result is nil exactly when the value is not valid, whatever time it holds, and is otherwise the held time. |
| NullTimes.ToNullTime | pkg/db/utils.go:15-20 | The value is valid exactly when a time was given. Nil gives the zero value. |
| NullTimes.FromToNullTime | pkg/db/utils.go:8-20 | Storing an optional time and reading it back gives it back. |
| NullTimes.ToFromNullTime | pkg/db/utils.go:8-20 | Reading a nullable time and storing it again preserves it exactly when it is valid or the zero value. |
| NullTimes.InvalidTimeDropped | pkg/db/utils.go:8-20 | An invalid value holding a non-zero time does not survive the round trip. |
| VoiceClassifier.Unmarshal | pkg/voiceclassifier/voiceclassifier.go:106-109 | Unmarshalling into a map succeeds exactly for an object, which gives its fields, and for `null`, which gives an empty map. Anything else is a parse error. |
| VoiceClassifier.StringField | pkg/voiceclassifier/voiceclassifier.go:110 | The type assertion to string succeeds exactly when the key holds a string. |
| VoiceClassifier.IntentOf | pkg/voiceclassifier/voiceclassifier.go:81-112 | A string `intent` is taken verbatim; anything else leaves `voice_unknown`. |
| VoiceClassifier.Classify | pkg/voiceclassifier/voiceclassifier.go:80-170 | An oracle error or an unparsable first reply is an error with no response. A response's intent is that of the first reply. The two times are never both set. The interested time only goes with `voice_interested`, the call-back time only with `voice_wants_call_back`, and other intents have neither. A set time lies in the loaded location of the call's zone. |
| VoiceClassifier.NoSecondCallUnlessNeeded | pkg/voiceclassifier/voiceclassifier.go:114-168 | For any other intent, the second reply, the zone and the time functions are never consulted: the response is the intent with no times. |
| VoiceClassifier.UnknownLabelKept | pkg/voiceclassifier/voiceclassifier.go:110-112 | A string intent outside the ten labels is passed on unchanged. |
| VoiceClassifier.MissingIntentIsUnknown | pkg/voiceclassifier/voiceclassifier.go:81-112 | A first reply without a string `intent` gives `voice_unknown`, with no time. |
| VoiceClassifier.NoTimeWithoutDatetime | pkg/voiceclassifier/voiceclassifier.go:154-155 | An `agreedDatetime` that is missing, not a string, `""` or `"null"` leaves both times nil. |
| VoiceClassifier.TimeOnItsField | pkg/voiceclassifier/voiceclassifier.go:154-165 | A parsed `agreedDatetime` keeps its wall-clock fields, is placed in the call's location, and lands on the field of the intent only. |
| VoiceClassifier.FailuresAreErrors | pkg/voiceclassifier/voiceclassifier.go:115-159 | Each of the following is an error with no response: an unknown zone, a failed second call, an unparsable second reply, an unparsable date. |
| ThreadClassifier.RowFor | cmd/classifier/main.go:153-172 | The inserted row carries the thread's ID and the result's intent. Each nullable time is valid exactly when the classifier returned that time, and reads back as it. |
| ThreadClassifier.ClassifyVoiceCall | cmd/classifier/main.go:139-178 | Classifying one call never touches a status. It succeeds exactly when classification and insert both do, and then appends that one row. On failure the store is unchanged and the error is returned. |
| ThreadClassifier.OkPrefix | cmd/classifier/main.go:121-126 | Counts the calls that go through before the first one that does not. |
| ThreadClassifier.ProcessCallsSpec | cmd/classifier/main.go:121-126 | The call loop never touches a status. It inserts one row per call, in order, up to the first failing call, and returns that call's error. Rows inserted before the failure stay. |
| ThreadClassifier.SetStatus | pkg/campaignthreads/campaignthreads.go:13-22 | The status update sets the thread's status if the thread exists and changes nothing else. |
| ThreadClassifier.ProcessThreadSpec | cmd/classifier/main.go:106-137 | Processing a thread changes no other thread's status. It changes the thread's own status only when its calls were listed, there is at least one, each was classified and inserted, and the update succeeded. In that case the thread becomes `voice_call_classified` with one new row per call. Rows are only appended, all for that thread. |
| ThreadClassifier.NoCallsNoChange | cmd/classifier/main.go:113-116 | A thread without voice calls is a success and keeps its status. |
| ThreadClassifier.ProcessUnclassifiedThreads | cmd/classifier/main.go:81-104 | A listing error ends the pass with that error and no change. Otherwise the pass succeeds and no thread appears or disappears. A status changes only for a listed thread, and only to `voice_call_classified`. Every listed thread whose calls all go through ends `voice_call_classified`. Rows are only appended. |
| ThreadClassifier.PassFromUnclassified | cmd/classifier/main.go:81-104 | When the listing is exactly the threads whose status is `voice_call_unclassified`, as `ListThreadsByStatus` is asked for, a pass moves a thread only from `voice_call_unclassified` to `voice_call_classified`. Any other status, such as `not_started` or an already classified thread, is kept. No thread appears or disappears. Every unclassified thread whose calls all go through ends `voice_call_classified`. |
| ThreadClassifier.ListedThreadsClassified | cmd/classifier/main.go:97-101 | A listed thread whose calls are listed and non-empty, each classified and inserted, with a successful status update, is `voice_call_classified` at the end of the pass, whatever the other threads do. |
| ThreadClassifier.LaterThreadsStillProcessed | cmd/classifier/main.go:97-101 | A thread's error never stops the pass: the last listed thread is processed on whatever the earlier threads left. |
| ThreadClassifier.PassSpec | cmd/classifier/main.go:81-104 | Over a pass, statuses change only for listed threads and only to `voice_call_classified`. No thread appears or disappears, and rows are only appended. |

## Left out

- The oracle itself: the OpenAI clients, models, prompt texts, uuid cache-busters and the follow-up message history. Each call is an input outcome.
- `ThreadPoolExecutor` and `as_completed`. The pools become an arbitrary permutation of completion order; within the ensemble, the three futures are read in submission order, as the code does.
- `datetime.now()` and the `classified_at`/`generated_at` stamps, and durations, which are given as inputs to the comparison.
- File reading and CSV parsing. A file is given as its `csv.DictReader` rows and its text, where the text is what `f.read()` returns after Python's universal-newline translation: a `\r\n` or a lone `\r` in the file is already a `\n` in it.
- All printing and output formatting: column widths, `:.1f`, `:+.1f`, the summary's fixed legend text, the JSON result files.
- Scoring.EvaluateAccuracy: the summary field `int(accuracy * len(transcripts) / 100)` is float arithmetic with truncation. The model keeps the exact count of hits instead, and the accuracy as an exact real.
- Python numeric equality across types (`1 == 1.0 == True`): numbers and booleans are opaque atoms compared by their text.
- `str()` of a decoded value, `json.loads` and Go's `encoding/json` are parameters and are not modelled.
- Go's `resp.Choices[0]` on an empty choice list panics. A panic is not an error return, and it is not modelled.
- `time.LoadLocation`, `time.Parse` and `time.Date` are inputs. A `Time` is a wall-clock reading plus a location; daylight-saving normalisation by `time.Date` and instants are not modelled. `CalledAt` is left out as well, since it only shapes the prompt.
- The service's ticker and signal loop, configuration loading, and `db.New`. `WithTx` is reduced to "the status update either happens or returns an error".
- `analyze_errors.py`, `pkg/api/*`, `cmd/backend/main.go`, `pkg/svc/env.go` and `pkg/classifications/classifications.go`. The generated query code is not part of this model; its queries are the functions of `ThreadClassifier.Env`.
- The random IDs of inserted classification rows.
- Three behaviours of the code that a reader might expect to be otherwise:
  - The ensemble's label is the first-seen most common vote. A tie is not rejected.
  - Under a failing oracle, the ensemble records the errors on its three votes, not on its own result.
  - The final comparison lists the strategies in the order they ran. It does not rank them.
- LogReader.StringIndexError: the text is the wording of Python 3.11 and later (`string indices must be integers, not 'str'`). Older versions say only `string indices must be integers`.
- Json.TypeName: an atom is named by its literal text. `true` and `false` are `bool`. A literal with `.`, `e` or `E`, and `NaN`/`Infinity`/`-Infinity`, is `float`. Every other atom is `int`. The name a Python error gives therefore follows that text and not a parsed number.

## Findings

| source | as written | input that shows it | evidently intended | confidence | as-written member | corrected member |
|---|---|---|---|---|---|---|
| test_improvements.py:355-359 | Ground truth is numbered over every CSV row. The transcripts (lines 309-318) skip rows with an empty transcript, so after such a row every later transcript is graded against the label of an earlier row. | Rows (transcript "", label voice_interested) and (transcript "hello", label voice_voice_mail). "hello" gets index 1 and is graded against voice_interested. | Transcript k is graded against the label on the row it was read from. | high; not executed | Scoring.GroundTruthMisaligned | Scoring.AlignedGroundTruthSpec |

`Scoring.LoadGroundTruth` is the as-written loader, and `Scoring.EvaluateAsWritten` grades with it as the script does. `Scoring.AlignedGroundTruth` is the corrected one, and `Scoring.Evaluate` uses it. `Scoring.GroundTruthAlignedWithoutEmptyRows` shows that the two agree whenever no row has an empty transcript, which is the precondition the original code silently relies on.
