/**
 * app/api/sms_send/route.ts: the `POST` handler that checks a message and a
 * recipient, normalises the number and hands both to `sendSMS`.
 */
module SendRoute {
  import opened Wrappers
  import opened JsText
  import Json
  import opened Semaphore

  /** The decoded request body: unreadable (not JSON, or `null`), or its two string fields, each possibly absent. */
  datatype Request = Unreadable | Fields(message: Option<string>, recipient: Option<string>)

  /** A field that is present and truthy, i.e. a non-empty string. */
  predicate Present(field: Option<string>) {
    field.Some? && field.value != ""
  }

  /** The JSON body of a response; `success` is `true` exactly for `Sent`. */
  datatype SendBody = Sent(message: string, data: Payload) | NotSent(error: Json.Value)

  datatype Response = Response(status: nat, body: SendBody)

  /** The SMS length limit the route enforces, in UTF-16 code units. */
  const MaxLength: nat := 160

  const RequiredError := "Message and recipient are required"
  const TooLongError := "Message exceeds 160 character limit"
  const InvalidNumberError := "Invalid Philippine mobile number. Use format: +639XXXXXXXXX or 09XXXXXXXXX"
  const InternalError := "Internal server error"

  function BadRequest(error: string): Response {
    Response(400, NotSent(Json.Str(error)))
  }

  /** What the checks before `sendSMS` decide: answer at once, or send `message` to the formatted `number`. */
  datatype Decision = Reject(response: Response) | Deliver(number: string, message: string)

  /** The checks of the handler, in their order: body, required fields, length, number. */
  function Screen(req: Request): (d: Decision)
    ensures req.Unreadable? ==> d == Reject(Response(500, NotSent(Json.Str(InternalError))))
    ensures req.Fields? && !(Present(req.message) && Present(req.recipient)) ==> d == Reject(BadRequest(RequiredError))
    ensures req.Fields? && Present(req.message) && Present(req.recipient) && JsLength(req.message.value) > MaxLength ==>
      d == Reject(BadRequest(TooLongError))
    ensures (req.Fields? && Present(req.message) && Present(req.recipient) && JsLength(req.message.value) <= MaxLength
             && !ValidatePhilippineNumber(FormatPhilippineNumber(req.recipient.value))) ==>
      d == Reject(BadRequest(InvalidNumberError))
    ensures d.Deliver? <==>
      req.Fields? && Present(req.message) && Present(req.recipient)
      && JsLength(req.message.value) <= MaxLength
      && ValidatePhilippineNumber(FormatPhilippineNumber(req.recipient.value))
    ensures d.Deliver? ==> d.message == req.message.value && d.number == FormatPhilippineNumber(req.recipient.value)
  {
    match req
    case Unreadable => Reject(Response(500, NotSent(Json.Str(InternalError))))
    case Fields(message, recipient) =>
      if !Present(message) || !Present(recipient) then
        Reject(BadRequest(RequiredError))
      else if JsLength(message.value) > MaxLength then
        Reject(BadRequest(TooLongError))
      else
        var formatted := FormatPhilippineNumber(recipient.value);
        if !ValidatePhilippineNumber(formatted) then
          Reject(BadRequest(InvalidNumberError))
        else
          Deliver(formatted, message.value)
  }

  /** `POST`: the screened request is sent, and the result of `sendSMS` becomes a 200 or a 500. */
  function Post(req: Request, t: Transport): (r: Response)
    ensures r.status == 200 <==> Screen(req).Deliver? && SendSms(Screen(req).number, Screen(req).message, t).Success?
    ensures r.body.Sent? <==> r.status == 200
    ensures r.body.Sent? ==>
      r.body.message == "SMS sent successfully" && r.body.data == SendSms(Screen(req).number, Screen(req).message, t).data
    ensures Screen(req).Reject? ==> r == Screen(req).response
  {
    match Screen(req)
    case Reject(response) => response
    case Deliver(number, message) =>
      match SendSms(number, message, t)
      case Success(data) => Response(200, Sent("SMS sent successfully", data))
      case Failure(error) => Response(500, NotSent(error))
  }

  /** A request that is turned away is answered without `sendSMS`: no transport, environment or gateway changes the answer. */
  lemma RejectionIgnoresTransport(req: Request, t: Transport, t': Transport)
    requires Screen(req).Reject?
    ensures Post(req, t) == Post(req, t') == Screen(req).response
    ensures Post(req, t).status == 400 || Post(req, t).status == 500
    ensures Post(req, t).body.NotSent?
  {
  }

  /** The length check comes before the number check: a long message is refused whatever the recipient. */
  lemma LengthBeforeNumber(message: string, recipient: string, t: Transport)
    requires message != "" && recipient != "" && JsLength(message) > MaxLength
    ensures Post(Fields(Some(message), Some(recipient)), t) == BadRequest(TooLongError)
  {
  }

  /** Exactly 160 code units are accepted; only more than that is refused as too long. */
  lemma LimitIsInclusive(message: string, recipient: string, t: Transport)
    requires message != "" && recipient != "" && JsLength(message) == MaxLength
    ensures Post(Fields(Some(message), Some(recipient)), t) != BadRequest(TooLongError)
  {
  }

  /**
   * Whatever reaches `sendSMS` is the international form `+639` plus nine digits,
   * with a non-empty message of at most 160 code units.
   */
  lemma DeliveredIsCanonical(req: Request) returns (d: string)
    requires Screen(req).Deliver?
    ensures |d| == 9 && AllDigits(d)
    ensures Screen(req).number == "+639" + d
    ensures Screen(req).message != "" && JsLength(Screen(req).message) <= MaxLength
  {
    d := ValidFormattedIsCanonical(req.recipient.value);
  }

  /** Every recipient that validates once formatted is delivered, its message untouched. */
  lemma ValidRecipientIsDelivered(message: string, recipient: string)
    requires message != "" && JsLength(message) <= MaxLength && ValidatePhilippineNumber(recipient)
    ensures Screen(Fields(Some(message), Some(recipient))) == Deliver(FormatPhilippineNumber(recipient), message)
  {
    var _ := FormatOfValid(recipient);
  }

  /**
   * In test mode a request that passes the checks always succeeds: the number was
   * normalised to digits, so the simulated `fail` and `invalid` recipients cannot
   * be reached through this route.
   */
  lemma TestModeDeliverySucceeds(req: Request, t: Transport)
    requires IsTestMode(t.env) && Screen(req).Deliver?
    ensures Post(req, t).status == 200
    ensures Post(req, t).body.data.MockBatch?
    ensures Post(req, t).body.data.messages[0].recipient == Screen(req).number
    ensures Post(req, t).body.data.messages[0].message == req.message.value
    ensures Post(req, t).body.data.messages[0].network == "Globe"
  {
    var number := Screen(req).number;
    ValidFormattedHasNoLetters(req.recipient.value);
    TestModeDecision(number, Screen(req).message, t);
    var d := DeliveredIsCanonical(req);
    assert StartsWith(number, "+639") by { assert number[..4] == "+639"; }
  }

  /** In production a failed gateway call is reported with status 500 and the error `sendSMS` produced. */
  lemma GatewayFailureIs500(req: Request, t: Transport)
    requires Screen(req).Deliver? && SendSms(Screen(req).number, Screen(req).message, t).Failure?
    ensures Post(req, t) == Response(500, NotSent(SendSms(Screen(req).number, Screen(req).message, t).error))
  {
  }
}
