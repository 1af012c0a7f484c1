/**
 * app/api/sms_classify/route.ts: the `POST` handler that asks a model to
 * classify an SMS and returns its JSON verdict, or a cautious default.
 */
module ClassifyRoute {
  import opened Wrappers
  import Json
  import opened Llm

  /** The decoded request body: reading it threw (with the error's message), or its `message` field, possibly absent. */
  datatype Request = Unreadable(error: string) | Fields(message: Option<string>)

  /** The JSON body of a response; `success: true` exactly for `Classified`. */
  datatype ClassifyBody =
    | ClassifyFailed(error: string)
    | Classified(message: string, classification: Json.Value, timestamp: string)

  datatype Response = Response(status: nat, body: ClassifyBody)

  /** `JSON.stringify` of a body, as the client's `response.json()` reads it back. */
  function BodyJson(body: ClassifyBody): (v: Json.Value)
    ensures v.Obj?
    ensures body.Classified? ==> Json.Get(v, "classification") == body.classification
    ensures body.ClassifyFailed? ==> Json.Get(v, "error") == Json.Str(body.error) && Json.Get(v, "classification") == Json.Undefined
  {
    match body
    case ClassifyFailed(error) => Json.Obj(map["error" := Json.Str(error)])
    case Classified(message, classification, timestamp) =>
      Json.Obj(map["success" := Json.Bool(true), "message" := Json.Str(message),
        "classification" := classification, "timestamp" := Json.Str(timestamp)])
  }

  /** The classification used when the model's text is not JSON: informational, medium risk, not to be sent. */
  const FallbackClassification: Json.Value := Json.Obj(map[
    "categories" := Json.Arr([Json.Str("Informational")]),
    "risk_level" := Json.Str("medium"),
    "allow_send" := Json.Bool(false),
    "reason" := Json.Str("Could not properly classify message content")])

  lemma FallbackForbidsSending()
    ensures Json.Get(FallbackClassification, "allow_send") == Json.Bool(false)
  {
  }

  lemma FallbackIsInformational()
    ensures Json.Get(FallbackClassification, "categories") == Json.Arr([Json.Str("Informational")])
  {
  }

  /** The classification the route returns for a non-blank model text and what `JSON.parse` makes of it. */
  function ClassificationOf(parsed: Json.Parse): (c: Json.Value)
    ensures parsed.Unparseable? ==> Json.Get(c, "allow_send") == Json.Bool(false)
    ensures parsed.Parsed? ==> c == parsed.value
  {
    match parsed
    case Unparseable => FallbackForbidsSending(); FallbackClassification
    case Parsed(v) => v
  }

  /** `POST`, with the model call, what `JSON.parse` makes of its text, and the ISO clock as inputs. */
  function Post(req: Request, call: ModelCall, parsed: Json.Parse, timestamp: string): (r: Response)
    ensures r.body.Classified? <==> r.status == 200
    ensures r.status == 200 <==>
      req.Fields? && req.message.Some? && req.message.value != "" && call.Answered? && AnswerText(call.content) != ""
    ensures r.status == 200 ==>
      r.body.message == req.message.value && r.body.timestamp == timestamp && r.body.classification == ClassificationOf(parsed)
    ensures req.Unreadable? ==> r == Response(500, ClassifyFailed(req.error))
    ensures req.Fields? && req.message.Some? && req.message.value != "" && call.Threw? ==>
      r == Response(500, ClassifyFailed(ErrorText(call.error)))
  {
    match req
    case Unreadable(error) => Response(500, ClassifyFailed(error))
    case Fields(message) =>
      if message.None? || message.value == "" then
        Response(400, ClassifyFailed("Message is required"))
      else
        match call
        case Threw(error) => Response(500, ClassifyFailed(ErrorText(error)))
        case Answered(content) =>
          if AnswerText(content) == "" then
            Response(500, ClassifyFailed("Failed to classify SMS content"))
          else
            Response(200, Classified(message.value, ClassificationOf(parsed), timestamp))
  }

  /** A missing message is refused before the model is called. */
  lemma MissingMessageIgnoresModel(call: ModelCall, parsed: Json.Parse, timestamp: string,
                                   call': ModelCall, parsed': Json.Parse, timestamp': string)
    ensures Post(Fields(None), call, parsed, timestamp) == Post(Fields(Some("")), call', parsed', timestamp')
    ensures Post(Fields(None), call, parsed, timestamp) == Response(400, ClassifyFailed("Message is required"))
  {
  }

  /** Text that is not JSON still yields a 200 response, whose classification does not allow sending. */
  lemma UnparseableFailsSafe(message: string, content: string, timestamp: string)
    requires message != "" && AnswerText(Some(content)) != ""
    ensures Post(Fields(Some(message)), Answered(Some(content)), Json.Unparseable, timestamp) ==
      Response(200, Classified(message, FallbackClassification, timestamp))
    ensures Json.Get(FallbackClassification, "allow_send") == Json.Bool(false)
    ensures Json.Get(FallbackClassification, "categories") == Json.Arr([Json.Str("Informational")])
  {
    UnparseableGivesFallback(message, content, timestamp);
    FallbackForbidsSending();
    FallbackIsInformational();
  }

  /** Text that is not JSON is answered with 200 and the fallback classification. */
  lemma UnparseableGivesFallback(message: string, content: string, timestamp: string)
    requires message != "" && AnswerText(Some(content)) != ""
    ensures Post(Fields(Some(message)), Answered(Some(content)), Json.Unparseable, timestamp) ==
      Response(200, Classified(message, FallbackClassification, timestamp))
  {
    assert ClassificationOf(Json.Unparseable) == FallbackClassification;
  }

  /** Whatever the model answered, only a non-blank answer reaches the parser: a blank one is a 500. */
  lemma BlankAnswerIs500(message: string, content: Option<string>, parsed: Json.Parse, timestamp: string)
    requires message != "" && AnswerText(content) == ""
    ensures Post(Fields(Some(message)), Answered(content), parsed, timestamp) ==
      Response(500, ClassifyFailed("Failed to classify SMS content"))
  {
  }
}
