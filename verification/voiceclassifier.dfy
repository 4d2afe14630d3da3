/** `Classifier.Classify` of `pkg/voiceclassifier`: one oracle call for the
    intent and, for the two intents that carry an appointment, a second call
    for the agreed date and time. Unlike the Python scripts there is no
    fail-safe: every failure is returned as an error and no response.
    The oracle's completions, `encoding/json`, `time.LoadLocation` and
    `time.Parse` are inputs. */
module VoiceClassifier {
  import opened Wrappers
  import opened Json
  import opened Intents
  import opened Times

  /** What `CreateChatCompletion` gave: an error, or the content of the
      first choice. */
  datatype Completion = ChatError(message: string) | Reply(content: string)

  /** `time.LoadLocation`: the location of a zone name, or an error. */
  type LoadLocation = string -> Option<string>

  /** `time.Parse("2006-01-02T15:04:05", text)`: a wall-clock reading, or an
      error. */
  type TimeParser = string -> Option<WallClock>

  /** The four ways `Classify` fails, each carrying what the wrapped error
      is about. */
  datatype ClassifyError =
    | OracleError(message: string)   // "openai create chat completion"
    | ParseError(content: string)    // "fail to parse response"
    | LocationError(timezone: string) // "error loading location timezone"
    | TimeParseError(text: string)   // "error parsing time"

  /** `ClassifyResponse`: the intent, and at most one of the two times. */
  datatype ClassifyResponse = ClassifyResponse(intent: string, interestedTime: Option<Time>, callBackTime: Option<Time>)

  /** `json.Unmarshal` into a `map[string]interface{}`: an object gives its
      fields, `null` leaves the map nil (which reads as empty), and text that
      does not parse or holds any other value is an error. */
  function Unmarshal(content: string, parse: Parser): (r: Result<map<string, Json>, ClassifyError>)
    ensures r.Success? <==> parse(content).Some? && (parse(content).value.JObject? || parse(content).value.JNull?)
    ensures r.Success? && parse(content).value.JObject? ==> r.value == parse(content).value.fields
    ensures r.Success? && parse(content).value.JNull? ==> r.value == map[]
    ensures r.Failure? ==> r.error == ParseError(content)
  {
    match parse(content)
    case Some(JObject(fields)) => Success(fields)
    case Some(JNull) => Success(map[])
    case _ => Failure(ParseError(content))
  }

  /** `m[key].(string)` with its `ok`: the value when it is a string. */
  function StringField(fields: map<string, Json>, key: string): (r: Option<string>)
    ensures r.Some? <==> key in fields && fields[key].JStr?
    ensures r.Some? ==> fields[key] == JStr(r.value)
  {
    if key in fields && fields[key].JStr? then Some(fields[key].str) else None
  }

  /** The intent of the first reply: its `intent` string cast to an
      `Intent` as it is, whatever it says, or the sentinel. */
  function IntentOf(fields: map<string, Json>): (intent: string)
    ensures "intent" in fields && fields["intent"].JStr? ==> intent == fields["intent"].str
    ensures !("intent" in fields && fields["intent"].JStr?) ==> intent == Unknown
  {
    match StringField(fields, "intent")
    case Some(s) => s
    case None => Unknown
  }

  /** The two intents that trigger the time extraction. */
  predicate NeedsTime(intent: string) {
    intent == Interested || intent == WantsCallBack
  }

  /** The response for a time-carrying intent: `agreedDatetime` as a
      non-empty string other than `"null"` is parsed and put in the call's
      location, on the field of the intent. */
  function AttachTime(intent: string, fields: map<string, Json>, location: string, parseTime: TimeParser)
    : (r: Result<ClassifyResponse, ClassifyError>)
    requires NeedsTime(intent)
  {
    match StringField(fields, "agreedDatetime")
    case None => Success(ClassifyResponse(intent, None, None))
    case Some(text) =>
      if text == "" || text == "null" then Success(ClassifyResponse(intent, None, None))
      else
        match parseTime(text)
        case None => Failure(TimeParseError(text))
        case Some(wall) =>
          var t := Time(wall, location);
          if intent == Interested then Success(ClassifyResponse(intent, Some(t), None))
          else Success(ClassifyResponse(intent, None, Some(t)))
  }

  /** `Classify`. `first` and `second` are the two completions (the second
      is only asked for a time-carrying intent), `timezone` is the call's
      zone name. */
  function Classify(first: Completion, second: Completion, timezone: string,
                    parse: Parser, loadLocation: LoadLocation, parseTime: TimeParser)
    : (r: Result<ClassifyResponse, ClassifyError>)
    ensures first.ChatError? ==> r == Failure(OracleError(first.message))
    ensures first.Reply? && Unmarshal(first.content, parse).Failure? ==> r == Failure(ParseError(first.content))
    ensures r.Success? ==>
      first.Reply? && Unmarshal(first.content, parse).Success? &&
      r.value.intent == IntentOf(Unmarshal(first.content, parse).value)
    ensures r.Success? ==> !(r.value.interestedTime.Some? && r.value.callBackTime.Some?)
    ensures r.Success? && r.value.interestedTime.Some? ==> r.value.intent == Interested
    ensures r.Success? && r.value.callBackTime.Some? ==> r.value.intent == WantsCallBack
    ensures r.Success? && !NeedsTime(r.value.intent) ==> r.value.interestedTime.None? && r.value.callBackTime.None?
    ensures r.Success? && (r.value.interestedTime.Some? || r.value.callBackTime.Some?) ==>
      loadLocation(timezone).Some? &&
      var t := if r.value.interestedTime.Some? then r.value.interestedTime.value else r.value.callBackTime.value;
      t.location == loadLocation(timezone).value
  {
    match first
    case ChatError(m) => Failure(OracleError(m))
    case Reply(c1) =>
      match Unmarshal(c1, parse)
      case Failure(e) => Failure(e)
      case Success(fields1) =>
        var intent := IntentOf(fields1);
        if !NeedsTime(intent) then Success(ClassifyResponse(intent, None, None))
        else
          match loadLocation(timezone)
          case None => Failure(LocationError(timezone))
          case Some(location) =>
            match second
            case ChatError(m) => Failure(OracleError(m))
            case Reply(c2) =>
              match Unmarshal(c2, parse)
              case Failure(e) => Failure(e)
              case Success(fields2) => AttachTime(intent, fields2, location, parseTime)
  }

  /** For an intent that carries no time the second completion, the zone
      and both time functions are never consulted: the response is the
      intent alone. */
  lemma NoSecondCallUnlessNeeded(first: Completion, parse: Parser,
                                 second: Completion, timezone: string, loadLocation: LoadLocation, parseTime: TimeParser,
                                 second': Completion, timezone': string, loadLocation': LoadLocation, parseTime': TimeParser)
    requires first.Reply? && Unmarshal(first.content, parse).Success?
    requires !NeedsTime(IntentOf(Unmarshal(first.content, parse).value))
    ensures Classify(first, second, timezone, parse, loadLocation, parseTime) ==
            Classify(first, second', timezone', parse, loadLocation', parseTime')
    ensures Classify(first, second, timezone, parse, loadLocation, parseTime) ==
            Success(ClassifyResponse(IntentOf(Unmarshal(first.content, parse).value), None, None))
  {
  }

  /** A string intent outside the ten known labels is passed on as it is. */
  lemma UnknownLabelKept(first: Completion, second: Completion, timezone: string,
                         parse: Parser, loadLocation: LoadLocation, parseTime: TimeParser, s: string)
    requires first.Reply? && parse(first.content) == Some(JObject(map["intent" := JStr(s)]))
    requires Recognise(s).None?
    ensures Classify(first, second, timezone, parse, loadLocation, parseTime) == Success(ClassifyResponse(s, None, None))
  {
  }

  /** A first reply without a string `intent` gives the sentinel, with no
      time and no second call. */
  lemma MissingIntentIsUnknown(first: Completion, second: Completion, timezone: string,
                               parse: Parser, loadLocation: LoadLocation, parseTime: TimeParser)
    requires first.Reply? && Unmarshal(first.content, parse).Success?
    requires !("intent" in Unmarshal(first.content, parse).value && Unmarshal(first.content, parse).value["intent"].JStr?)
    ensures Classify(first, second, timezone, parse, loadLocation, parseTime) == Success(ClassifyResponse(Unknown, None, None))
  {
  }

  /** The inputs under which a time-carrying intent reaches the second reply:
      its intent, the call's location and the second reply's fields. */
  predicate SecondReplyRead(first: Completion, second: Completion, timezone: string, parse: Parser,
                            loadLocation: LoadLocation, intent: string, location: string, fields: map<string, Json>)
  {
    && first.Reply? && Unmarshal(first.content, parse).Success?
    && IntentOf(Unmarshal(first.content, parse).value) == intent
    && NeedsTime(intent)
    && loadLocation(timezone) == Some(location)
    && second.Reply? && Unmarshal(second.content, parse) == Success(fields)
  }

  /** An `agreedDatetime` that is missing, not a string, `""` or `"null"`
      leaves both times nil. */
  lemma NoTimeWithoutDatetime(first: Completion, second: Completion, timezone: string, parse: Parser,
                              loadLocation: LoadLocation, parseTime: TimeParser,
                              intent: string, location: string, fields: map<string, Json>)
    requires SecondReplyRead(first, second, timezone, parse, loadLocation, intent, location, fields)
    requires StringField(fields, "agreedDatetime") in {None, Some(""), Some("null")}
    ensures Classify(first, second, timezone, parse, loadLocation, parseTime) == Success(ClassifyResponse(intent, None, None))
  {
  }

  /** A parsed `agreedDatetime` keeps its wall-clock fields, is placed in
      the call's location, and lands on exactly the field of the intent. */
  lemma TimeOnItsField(first: Completion, second: Completion, timezone: string, parse: Parser,
                       loadLocation: LoadLocation, parseTime: TimeParser,
                       intent: string, location: string, fields: map<string, Json>, text: string, wall: WallClock)
    requires SecondReplyRead(first, second, timezone, parse, loadLocation, intent, location, fields)
    requires StringField(fields, "agreedDatetime") == Some(text) && text != "" && text != "null"
    requires parseTime(text) == Some(wall)
    ensures var r := Classify(first, second, timezone, parse, loadLocation, parseTime);
      r.Success? &&
      (intent == Interested ==> r.value == ClassifyResponse(intent, Some(Time(wall, location)), None)) &&
      (intent == WantsCallBack ==> r.value == ClassifyResponse(intent, None, Some(Time(wall, location))))
  {
  }

  /** Every failure after the first reply is an error with no response:
      an unknown zone, a failed or unparsable second reply, an unparsable
      date. */
  lemma FailuresAreErrors(first: Completion, second: Completion, timezone: string,
                          parse: Parser, loadLocation: LoadLocation, parseTime: TimeParser)
    requires first.Reply? && Unmarshal(first.content, parse).Success?
    requires NeedsTime(IntentOf(Unmarshal(first.content, parse).value))
    ensures loadLocation(timezone).None? ==>
      Classify(first, second, timezone, parse, loadLocation, parseTime) == Failure(LocationError(timezone))
    ensures loadLocation(timezone).Some? && second.ChatError? ==>
      Classify(first, second, timezone, parse, loadLocation, parseTime) == Failure(OracleError(second.message))
    ensures loadLocation(timezone).Some? && second.Reply? && Unmarshal(second.content, parse).Failure? ==>
      Classify(first, second, timezone, parse, loadLocation, parseTime) == Failure(ParseError(second.content))
    ensures loadLocation(timezone).Some? && second.Reply? && Unmarshal(second.content, parse).Success? ==>
      var text := StringField(Unmarshal(second.content, parse).value, "agreedDatetime");
      text.Some? && text.value != "" && text.value != "null" && parseTime(text.value).None? ==>
      Classify(first, second, timezone, parse, loadLocation, parseTime) == Failure(TimeParseError(text.value))
  {
  }
}
