/** One round trip to the classification service, as the Python scripts see
    it. The service, the prompt text and `json.loads` are outside the model:
    what a call produced is an input. */
module Oracle {
  import opened Wrappers
  import opened Json
  import Intents

  /** The outcome of `client.chat.completions.create(...)` followed by
      `json.loads` of the first choice's content: either some exception was
      raised along the way (client error, empty choices, malformed JSON), or
      a decoded value came back. */
  datatype CallOutcome = Raised(message: string) | Replied(reply: Json)

  /** The sentinel label as a Python value. */
  const UnknownLabel: Json := JStr(Intents.Unknown)

  /** `str(e)` of the `AttributeError` raised by `.get` on a decoded value
      that is not a dict. */
  function NoGetAttribute(v: Json): string {
    "'" + TypeName(v) + "' object has no attribute 'get'"
  }

  /** `result.get("intent", "voice_unknown")` on the decoded reply. */
  function IntentField(reply: Json): Result<Json, string> {
    match reply
    case JObject(fields) => Success(Get(fields, "intent", UnknownLabel))
    case _ => Failure(NoGetAttribute(reply))
  }
}
