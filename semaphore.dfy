/**
 * utils/semaphore.ts: Philippine mobile-number formatting and validation, and
 * the decision `sendSMS` makes before (or instead of) contacting the gateway.
 */
module Semaphore {
  import opened Wrappers
  import opened JsText
  import Json

  /** `9` followed by exactly nine digits: the subscriber part every accepted shape ends with. */
  predicate IsMobileTail(t: string) {
    |t| == 10 && t[0] == '9' && AllDigits(t[1..])
  }

  /** The regular expression `/^(\+63|63|0)?9\d{9}$/`, one alternative per optional prefix. */
  predicate MatchesMobilePattern(s: string) {
    IsMobileTail(s)
    || (StartsWith(s, "0") && IsMobileTail(s[1..]))
    || (StartsWith(s, "63") && IsMobileTail(s[2..]))
    || (StartsWith(s, "+63") && IsMobileTail(s[3..]))
  }

  /** The four ways of writing a Philippine mobile number. */
  datatype Shape = International | Country | Local | Bare

  function PrefixOf(shape: Shape): string {
    match shape
    case International => "+63"
    case Country => "63"
    case Local => "0"
    case Bare => ""
  }

  /** The number with subscriber digits `d` written in `shape`, as in `+639123456789`, `639123456789`, `09123456789`, `9123456789`. */
  function Written(shape: Shape, d: string): string {
    PrefixOf(shape) + "9" + d
  }

  /** `validatePhilippineNumber`. */
  predicate ValidatePhilippineNumber(number: string) {
    MatchesMobilePattern(RemoveWhitespace(number))
  }

  /** `formatPhilippineNumber`: the digits-only form decides which rule applies; if none does, the input comes back as it was. */
  function FormatPhilippineNumber(number: string): (r: string)
    ensures r == number || (|r| > 0 && r[0] == '+' && AllDigits(r[1..]))
  {
    var cleaned := DigitsOnly(number);
    if StartsWith(cleaned, "639") then
      assert ("+" + cleaned)[1..] == cleaned;
      "+" + cleaned
    else if StartsWith(cleaned, "09") then
      assert ("+63" + cleaned[1..])[1..] == "63" + cleaned[1..];
      "+63" + cleaned[1..]
    else if StartsWith(cleaned, "9") && |cleaned| == 10 then
      assert ("+63" + cleaned)[1..] == "63" + cleaned;
      "+63" + cleaned
    else
      number
  }

  /** One of the three rewriting rules applies to the digits-only form `cleaned`. */
  predicate RuleApplies(cleaned: string) {
    StartsWith(cleaned, "639") || StartsWith(cleaned, "09") || (StartsWith(cleaned, "9") && |cleaned| == 10)
  }

  /** When a rule applies, the result depends on the digits alone: separators and signs are dropped. */
  lemma FormatFollowsDigits(a: string, b: string)
    requires DigitsOnly(a) == DigitsOnly(b) && RuleApplies(DigitsOnly(a))
    ensures FormatPhilippineNumber(a) == FormatPhilippineNumber(b)
  {
  }

  /** When no rule applies, the input comes back unchanged, white space, signs and letters included. */
  lemma FormatUnchanged(number: string)
    requires !RuleApplies(DigitsOnly(number))
    ensures FormatPhilippineNumber(number) == number
  {
  }

  lemma WrittenMatches(shape: Shape, d: string)
    requires |d| == 9 && AllDigits(d)
    ensures MatchesMobilePattern(Written(shape, d))
  {
    var w := Written(shape, d);
    var k := |PrefixOf(shape)|;
    assert w[k..] == "9" + d;
    assert w[..k] == PrefixOf(shape);
    assert ("9" + d)[1..] == d;
  }

  /** The regular expression accepts exactly the four shapes: an optional `+63`, `63` or `0`, then `9`, then nine digits. */
  lemma PatternIff(s: string)
    ensures MatchesMobilePattern(s) <==> exists shape, d :: |d| == 9 && AllDigits(d) && s == Written(shape, d)
  {
    if MatchesMobilePattern(s) {
      var shape :=
        if IsMobileTail(s) then Bare
        else if StartsWith(s, "0") && IsMobileTail(s[1..]) then Local
        else if StartsWith(s, "63") && IsMobileTail(s[2..]) then Country
        else International;
      var k := |PrefixOf(shape)|;
      var d := s[k + 1..];
      assert s == s[..k] + s[k..k + 1] + d;
      assert s == Written(shape, d);
    }
    forall shape, d | |d| == 9 && AllDigits(d) ensures MatchesMobilePattern(Written(shape, d)) {
      WrittenMatches(shape, d);
    }
  }

  /** Validation accepts a number exactly when, with its white space removed, it is written in one of the four shapes. */
  lemma ValidateIff(number: string)
    ensures ValidatePhilippineNumber(number) <==>
      exists shape, d :: |d| == 9 && AllDigits(d) && RemoveWhitespace(number) == Written(shape, d)
  {
    PatternIff(RemoveWhitespace(number));
  }

  lemma {:induction false} DigitsOfWritten(shape: Shape, d: string)
    requires AllDigits(d)
    ensures DigitsOnly(Written(shape, d)) == DigitsOnly(PrefixOf(shape)) + "9" + d
  {
    DigitsOnlyAppend(PrefixOf(shape) + "9", d);
    DigitsOnlyAppend(PrefixOf(shape), "9");
    DigitsOnlyOfDigits(d);
    assert DigitsOnly("9") == "9";
  }

  /** Digits starting `639` get a `+`. */
  lemma FormatOfCountryDigits(number: string, d: string)
    requires DigitsOnly(number) == "639" + d
    ensures RuleApplies(DigitsOnly(number)) && FormatPhilippineNumber(number) == "+639" + d
  {
    StartsWithAppend("639", d);
    assert "+" + ("639" + d) == "+639" + d;
  }

  /** Digits starting `09` lose the `0` and get `+63`. */
  lemma FormatOfLocalDigits(number: string, d: string)
    requires DigitsOnly(number) == "09" + d
    ensures RuleApplies(DigitsOnly(number)) && FormatPhilippineNumber(number) == "+639" + d
  {
    var cleaned := DigitsOnly(number);
    StartsWithAppend("09", d);
    DiffersAt(cleaned, "639", 0);
    assert cleaned[1..] == "9" + d;
    assert "+63" + ("9" + d) == "+639" + d;
  }

  /** Ten digits starting `9` get `+63`. */
  lemma FormatOfBareDigits(number: string, d: string)
    requires DigitsOnly(number) == "9" + d && |d| == 9
    ensures RuleApplies(DigitsOnly(number)) && FormatPhilippineNumber(number) == "+639" + d
  {
    var cleaned := DigitsOnly(number);
    StartsWithAppend("9", d);
    DiffersAt(cleaned, "639", 0);
    DiffersAt(cleaned, "09", 0);
    assert "+63" + ("9" + d) == "+639" + d;
  }

  /** Every accepted shape formats to the international form `+639` followed by the nine subscriber digits. */
  lemma FormatWritten(shape: Shape, d: string)
    requires |d| == 9 && AllDigits(d)
    ensures RuleApplies(DigitsOnly(Written(shape, d)))
    ensures FormatPhilippineNumber(Written(shape, d)) == "+639" + d
  {
    match shape
    case International => FormatInternational(d);
    case Country => FormatCountry(d);
    case Local => FormatLocal(d);
    case Bare => FormatBare(d);
  }

  lemma FormatInternational(d: string)
    requires |d| == 9 && AllDigits(d)
    ensures RuleApplies(DigitsOnly(Written(International, d)))
    ensures FormatPhilippineNumber(Written(International, d)) == "+639" + d
  {
    DigitsOfWritten(International, d);
    assert DigitsOnly("+63") == "63";
    assert "63" + "9" + d == "639" + d;
    FormatOfCountryDigits(Written(International, d), d);
  }

  lemma FormatCountry(d: string)
    requires |d| == 9 && AllDigits(d)
    ensures RuleApplies(DigitsOnly(Written(Country, d)))
    ensures FormatPhilippineNumber(Written(Country, d)) == "+639" + d
  {
    DigitsOfWritten(Country, d);
    assert DigitsOnly("63") == "63";
    assert "63" + "9" + d == "639" + d;
    FormatOfCountryDigits(Written(Country, d), d);
  }

  lemma FormatLocal(d: string)
    requires |d| == 9 && AllDigits(d)
    ensures RuleApplies(DigitsOnly(Written(Local, d)))
    ensures FormatPhilippineNumber(Written(Local, d)) == "+639" + d
  {
    DigitsOfWritten(Local, d);
    assert DigitsOnly("0") == "0";
    assert "0" + "9" + d == "09" + d;
    FormatOfLocalDigits(Written(Local, d), d);
  }

  lemma FormatBare(d: string)
    requires |d| == 9 && AllDigits(d)
    ensures RuleApplies(DigitsOnly(Written(Bare, d)))
    ensures FormatPhilippineNumber(Written(Bare, d)) == "+639" + d
  {
    DigitsOfWritten(Bare, d);
    assert DigitsOnly("") == "";
    assert "" + "9" + d == "9" + d;
    FormatOfBareDigits(Written(Bare, d), d);
  }

  /** The subscriber digits of the examples. */
  lemma SampleShapes()
    ensures Written(International, "123456789") == "+639123456789"
    ensures Written(Country, "123456789") == "639123456789"
    ensures Written(Local, "123456789") == "09123456789"
    ensures Written(Bare, "123456789") == "9123456789"
  {
  }

  lemma SampleFormats(shape: Shape)
    ensures FormatPhilippineNumber(Written(shape, "123456789")) == "+639123456789"
  {
    assert AllDigits("123456789");
    FormatWritten(shape, "123456789");
    assert "+639" + "123456789" == "+639123456789";
  }

  /** The four example shapes all become `+639123456789`. */
  lemma FormatExamples()
    ensures FormatPhilippineNumber("+639123456789") == "+639123456789"
    ensures FormatPhilippineNumber("639123456789") == "+639123456789"
    ensures FormatPhilippineNumber("09123456789") == "+639123456789"
    ensures FormatPhilippineNumber("9123456789") == "+639123456789"
  {
    SampleShapes();
    SampleFormats(International);
    SampleFormats(Country);
    SampleFormats(Local);
    SampleFormats(Bare);
  }

  /** The international form `+639` plus nine digits passes validation. */
  lemma CanonicalIsValid(d: string)
    requires |d| == 9 && AllDigits(d)
    ensures ValidatePhilippineNumber("+639" + d)
  {
    assert "+639" + d == Written(International, d);
    WrittenMatches(International, d);
    RemoveWhitespaceOfPlain("+639" + d);
  }

  /** A number that validates is formatted to its international form, which validates too. */
  lemma FormatOfValid(number: string) returns (d: string)
    requires ValidatePhilippineNumber(number)
    ensures |d| == 9 && AllDigits(d)
    ensures FormatPhilippineNumber(number) == "+639" + d
    ensures ValidatePhilippineNumber(FormatPhilippineNumber(number))
  {
    ValidateIff(number);
    var shape :| exists d' :: |d'| == 9 && AllDigits(d') && RemoveWhitespace(number) == Written(shape, d');
    d :| |d| == 9 && AllDigits(d) && RemoveWhitespace(number) == Written(shape, d);
    DigitsOnlyIgnoresWhitespace(number);
    assert DigitsOnly(number) == DigitsOnly(Written(shape, d));
    FormatWritten(shape, d);
    assert RuleApplies(DigitsOnly(Written(shape, d)));
    FormatFollowsDigits(number, Written(shape, d));
    CanonicalIsValid(d);
  }

  /**
   * What passes validation after formatting is `+639` and nine digits, whichever
   * branch of the formatter produced it (the unchanged input included).
   */
  lemma ValidFormattedIsCanonical(number: string) returns (d: string)
    requires ValidatePhilippineNumber(FormatPhilippineNumber(number))
    ensures |d| == 9 && AllDigits(d)
    ensures FormatPhilippineNumber(number) == "+639" + d
  {
    var r := FormatPhilippineNumber(number);
    if r == number {
      d := FormatOfValid(number);
    } else {
      assert forall i :: 0 <= i < |r| ==> !IsWhitespace(r[i]) by {
        forall i | 0 <= i < |r| ensures !IsWhitespace(r[i]) {
          if i > 0 { assert r[i] == r[1..][i - 1]; }
        }
      }
      RemoveWhitespaceOfPlain(r);
      assert MatchesMobilePattern(r);
      assert !IsMobileTail(r) && !StartsWith(r, "0") && !StartsWith(r, "63");
      d := r[4..];
      assert r[3..] == "9" + d;
      assert r == "+63" + r[3..];
      assert AllDigits(d) by {
        forall i | 0 <= i < |d| ensures IsDigit(d[i]) { assert d[i] == r[3..][1..][i]; }
      }
    }
  }

  /** A recipient that passes validation after formatting consists of `+` and digits, so it contains neither `fail` nor `invalid`. */
  lemma ValidFormattedHasNoLetters(number: string)
    requires ValidatePhilippineNumber(FormatPhilippineNumber(number))
    ensures !Contains(FormatPhilippineNumber(number), "fail")
    ensures !Contains(FormatPhilippineNumber(number), "invalid")
  {
    var d := ValidFormattedIsCanonical(number);
    var r := "+639" + d;
    assert forall i :: 0 <= i < |r| ==> r[i] == '+' || IsDigit(r[i]) by {
      forall i | 0 <= i < |r| ensures r[i] == '+' || IsDigit(r[i]) {
        if i >= 4 { assert r[i] == d[i - 4]; }
      }
    }
    assert 'f' in "fail";
    ContainsNeedsItsCharacters(r, "fail", 'f');
    assert 'i' in "invalid";
    ContainsNeedsItsCharacters(r, "invalid", 'i');
  }

  /** Digits only, `639` first: the rule adds `+` and does not look at the length. */
  lemma FormatDoesNotCheckLength()
    ensures FormatPhilippineNumber("6391") == "+6391"
    ensures !ValidatePhilippineNumber("+6391")
  {
    DigitsOnlyOfDigits("6391");
    RemoveWhitespaceOfPlain("+6391");
  }

  /** Too short for any rule: `12345` comes back unchanged and fails validation. */
  lemma ShortNumberRejected()
    ensures FormatPhilippineNumber("12345") == "12345" && !ValidatePhilippineNumber("12345")
  {
    DigitsOnlyOfDigits("12345");
    FormatUnchanged("12345");
    RemoveWhitespaceOfPlain("12345");
  }

  /**
   * A foreign number, `+` and digits for a country code other than 63, keeps its
   * `+` and its digits, since no rule applies, and fails validation.
   */
  lemma ForeignNumberRejected(digits: string)
    requires |digits| > 0 && AllDigits(digits) && digits[0] != '6' && digits[0] != '0' && digits[0] != '9'
    ensures FormatPhilippineNumber("+" + digits) == "+" + digits
    ensures !ValidatePhilippineNumber("+" + digits)
  {
    var number := "+" + digits;
    DigitsOnlyAppend("+", digits);
    DigitsOnlyOfDigits(digits);
    assert DigitsOnly("+") == "";
    assert DigitsOnly(number) == digits;
    DiffersAt(digits, "639", 0);
    DiffersAt(digits, "09", 0);
    DiffersAt(digits, "9", 0);
    FormatUnchanged(number);
    assert forall i :: 0 <= i < |number| ==> !IsWhitespace(number[i]) by {
      forall i | 0 <= i < |number| ensures !IsWhitespace(number[i]) {
        if i > 0 { assert number[i] == digits[i - 1]; }
      }
    }
    RemoveWhitespaceOfPlain(number);
    PlusWithoutCountryCode(number);
  }

  /** A `+` that is not followed by `6` cannot start any accepted shape. */
  lemma PlusWithoutCountryCode(s: string)
    requires |s| >= 2 && s[0] == '+' && s[1] != '6'
    ensures !MatchesMobilePattern(s)
  {
    if |s| >= 3 {
      assert s[..3][1] == s[1];
    }
  }

  // ---------------------------------------------------------------- sendSMS

  /** The process environment `sendSMS` reads. */
  datatype Env = Env(nodeEnv: Option<string>, smsTestMode: Option<string>, apiKey: Option<string>)

  /** `IS_TEST_MODE`. */
  predicate IsTestMode(env: Env) {
    env.nodeEnv == Some("development") || env.smsTestMode == Some("true")
  }

  /** `SMSMessage`, the shape of one queued message. */
  datatype SmsMessage = SmsMessage(
    messageId: nat, userId: nat, user: string, accountId: nat, account: string,
    recipient: string, message: string, senderName: string, network: string,
    status: string, kind: string, source: string, createdAt: string, updatedAt: string)

  /** `data` of a successful send: the simulated batch, or whatever the gateway returned. */
  datatype Payload = MockBatch(messages: seq<SmsMessage>) | GatewayData(data: Json.Value)

  /** `SemaphoreResponse`; `error` is whatever value the failing branch put there. */
  datatype SemaphoreResponse = Success(data: Payload) | Failure(error: Json.Value)

  /**
   * The HTTP exchange with the gateway: the request or the decoding of its body
   * threw (an `Error` carries its message, any other thrown value does not), or a
   * response arrived with its `ok` flag and its decoded body.
   */
  datatype Exchange = Threw(message: Option<string>) | Replied(ok: bool, body: Json.Value)

  /**
   * Everything `sendSMS` takes from outside its arguments: the environment, the
   * exchange with the gateway, the random message id and the formatted clock of
   * a simulated message.
   */
  datatype Transport = Transport(env: Env, exchange: Exchange, messageId: nat, timestamp: string)

  /**
   * The production branch once a key is configured: how the exchange becomes a
   * response. Reading `message` on a `null` body throws a `TypeError`, which the
   * surrounding `catch` reports like any other `Error`.
   */
  function GatewayOutcome(exchange: Exchange): (r: SemaphoreResponse)
    ensures r.Success? <==> exchange.Replied? && exchange.ok
    ensures r.Success? ==> r.data == GatewayData(exchange.body)
    ensures exchange.Replied? && !exchange.ok && exchange.body.Null? ==> r == Failure(Json.Str(Json.NullRead("message")))
    ensures exchange.Replied? && !exchange.ok && !exchange.body.Null? && Json.Truthy(Json.Get(exchange.body, "message")) ==>
      r == Failure(Json.Get(exchange.body, "message"))
    ensures exchange.Replied? && !exchange.ok && !exchange.body.Null? && !Json.Truthy(Json.Get(exchange.body, "message")) ==>
      r == Failure(Json.Str("Failed to send SMS"))
    ensures exchange.Threw? && exchange.message.Some? ==> r == Failure(Json.Str(exchange.message.value))
    ensures exchange.Threw? && exchange.message.None? ==> r == Failure(Json.Str("Network error"))
  {
    match exchange
    case Threw(message) =>
      if message.Some? then Failure(Json.Str(message.value)) else Failure(Json.Str("Network error"))
    case Replied(ok, body) =>
      if !ok then
        if body.Null? then Failure(Json.Str(Json.NullRead("message")))
        else
          var m := Json.Get(body, "message");
          Failure(if Json.Truthy(m) then m else Json.Str("Failed to send SMS"))
      else
        Success(GatewayData(body))
  }

  /** `createMockResponse`. */
  function CreateMockResponse(recipient: string, message: string, messageId: nat, timestamp: string): (m: SmsMessage)
    ensures m.recipient == recipient && m.message == message
    ensures m.network == "Globe" <==> StartsWith(recipient, "+639")
  {
    SmsMessage(messageId, 12345, "test@example.com", 67890, "Test Account",
      recipient, message, "SEMAPHORE",
      if StartsWith(recipient, "+639") then "Globe" else "International",
      "Queued", "Single", "Api", timestamp, timestamp)
  }

  /** `sendSMS`: simulated outcomes in test mode; otherwise a configuration check before the gateway is used. */
  function SendSms(recipient: string, message: string, t: Transport): (r: SemaphoreResponse)
    ensures IsTestMode(t.env) && r.Success? ==> r.data.MockBatch? && |r.data.messages| == 1
    ensures !IsTestMode(t.env) && (t.env.apiKey.None? || t.env.apiKey == Some("")) ==>
      r == Failure(Json.Str("SEMAPHORE_API_KEY not configured"))
    ensures !IsTestMode(t.env) && t.env.apiKey.Some? && t.env.apiKey.value != "" ==> r == GatewayOutcome(t.exchange)
  {
    if IsTestMode(t.env) then
      if Contains(recipient, "fail") then Failure(Json.Str("Test failure simulation"))
      else if Contains(recipient, "invalid") then Failure(Json.Str("Invalid phone number format"))
      else Success(MockBatch([CreateMockResponse(recipient, message, t.messageId, t.timestamp)]))
    else if t.env.apiKey.None? || t.env.apiKey == Some("") then
      Failure(Json.Str("SEMAPHORE_API_KEY not configured"))
    else
      GatewayOutcome(t.exchange)
  }

  /** In test mode the outcome is decided by the recipient alone, `fail` before `invalid`, and success echoes recipient and message. */
  lemma TestModeDecision(recipient: string, message: string, t: Transport)
    requires IsTestMode(t.env)
    ensures Contains(recipient, "fail") ==> SendSms(recipient, message, t) == Failure(Json.Str("Test failure simulation"))
    ensures !Contains(recipient, "fail") && Contains(recipient, "invalid") ==>
      SendSms(recipient, message, t) == Failure(Json.Str("Invalid phone number format"))
    ensures !Contains(recipient, "fail") && !Contains(recipient, "invalid") ==>
      SendSms(recipient, message, t).Success? && SendSms(recipient, message, t).data.MockBatch?
      && |SendSms(recipient, message, t).data.messages| == 1
      && SendSms(recipient, message, t).data.messages[0].recipient == recipient
      && SendSms(recipient, message, t).data.messages[0].message == message
  {
  }

  /** The first simulated failure wins: a recipient with both markers reports the transport failure. */
  lemma FailBeforeInvalid(message: string, t: Transport)
    requires IsTestMode(t.env)
    ensures SendSms("+639failinvalid", message, t) == Failure(Json.Str("Test failure simulation"))
  {
    assert OccursAt("+639failinvalid", "fail", 4);
  }

  /** In production mode a missing or empty key fails before, and whatever, the gateway would answer. */
  lemma MissingKeyNeverReachesGateway(recipient: string, message: string, t: Transport, exchange: Exchange)
    requires !IsTestMode(t.env) && (t.env.apiKey.None? || t.env.apiKey == Some(""))
    ensures SendSms(recipient, message, t) == Failure(Json.Str("SEMAPHORE_API_KEY not configured"))
    ensures SendSms(recipient, message, t.(exchange := exchange)) == SendSms(recipient, message, t)
  {
  }
}
