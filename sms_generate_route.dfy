/**
 * app/api/sms_generate/route.ts: the `POST` handler that screens a prompt with a
 * moderation call, generates an SMS with a second call, and screens the result
 * for refusals and length.
 */
module GenerateRoute {
  import opened Wrappers
  import opened JsText
  import Json
  import opened Llm

  /** The decoded request body: reading it threw (with the error's message), or its two string fields, each possibly absent. */
  datatype Request = Unreadable(error: string) | Fields(persona: Option<string>, prompt: Option<string>)

  /** A field that is present and truthy, i.e. a non-empty string. */
  predicate Present(field: Option<string>) {
    field.Some? && field.value != ""
  }

  /** The JSON body of a response. `Blocked` carries `blocked: true` and `auditLogged: true`, `Unverified` carries `blocked: true`. */
  datatype GenerateBody =
    | GenerateFailed(error: string)
    | Blocked(error: string, reason: string, category: Json.Value, violationId: string)
    | Unverified(error: string)
    | TooLong(error: string, message: string, length: nat)
    | Generated(message: string, persona: string, length: nat, charactersRemaining: int)

  /** The compliance record written to the log when a request is blocked (timestamps and request headers are not part of the model). */
  datatype AuditEntry =
    | InputBlocked(category: Json.Value, reason: Json.Value, originalPrompt: string, persona: string)
    | GenerationRefused(refusalMessage: string, originalPrompt: string, persona: string)

  /** A response together with the audit record logged on the way, if any. */
  datatype Outcome = Outcome(status: nat, body: GenerateBody, audit: Option<AuditEntry>)

  const MaxLength: nat := 160

  /** `JSON.stringify` of a body, as the client's `response.json()` reads it back. */
  function BodyJson(body: GenerateBody): (v: Json.Value)
    ensures v.Obj?
    ensures Json.Truthy(Json.Get(v, "blocked")) <==> body.Blocked? || body.Unverified?
    ensures Json.Get(v, "message") == (if body.TooLong? || body.Generated? then Json.Str(body.message) else Json.Undefined)
    ensures !body.Generated? ==> Json.Get(v, "error") == Json.Str(body.error)
    ensures body.Blocked? ==> Json.Get(v, "category") == body.category
  {
    match body
    case GenerateFailed(error) => Json.Obj(map["error" := Json.Str(error)])
    case Blocked(error, reason, category, violationId) =>
      Json.Obj(map["error" := Json.Str(error), "reason" := Json.Str(reason), "category" := category,
        "blocked" := Json.Bool(true), "violationId" := Json.Str(violationId), "auditLogged" := Json.Bool(true)])
    case Unverified(error) => Json.Obj(map["error" := Json.Str(error), "blocked" := Json.Bool(true)])
    case TooLong(error, message, length) =>
      Json.Obj(map["error" := Json.Str(error), "message" := Json.Str(message), "length" := Json.Num(length)])
    case Generated(message, persona, length, charactersRemaining) =>
      Json.Obj(map["success" := Json.Bool(true), "message" := Json.Str(message), "persona" := Json.Str(persona),
        "length" := Json.Num(length), "charactersRemaining" := Json.Num(charactersRemaining)])
  }

  // ---------------------------------------------------------------- pre-check

  /** `JSON.parse('{"safe": false, "reason": "Parse error"}')`, used when the moderator's text is missing or blank. */
  const DefaultVerdict: Json.Value := Json.Obj(map["safe" := Json.Bool(false), "reason" := Json.Str("Parse error")])

  /** What the moderation step concluded about the prompt. */
  datatype Verdict = Safe | Unsafe(reason: Json.Value, category: Json.Value) | CannotVerify

  /**
   * The moderation verdict from the moderator's answer and what `JSON.parse`
   * makes of its trimmed text: a blank answer is read as the default verdict,
   * unparseable text or `null` (reading `.safe` on it throws) cannot be verified,
   * and anything without a truthy `safe` is unsafe.
   */
  function PreCheck(content: Option<string>, parsed: Json.Parse): (v: Verdict)
    ensures AnswerText(content) == "" ==> v == Unsafe(Json.Str("Parse error"), Json.Undefined)
    ensures AnswerText(content) != "" && (parsed.Unparseable? || parsed.value.Null?) ==> v == CannotVerify
    ensures AnswerText(content) != "" && parsed.Parsed? && !parsed.value.Null? && !Json.Truthy(Json.Get(parsed.value, "safe")) ==>
      v == Unsafe(Json.Get(parsed.value, "reason"), Json.Get(parsed.value, "category"))
    ensures v.Safe? <==> AnswerText(content) != "" && parsed.Parsed? && Json.Truthy(Json.Get(parsed.value, "safe"))
  {
    var text := AnswerText(content);
    var value := if text == "" then Json.Parsed(DefaultVerdict) else parsed;
    match value
    case Unparseable => CannotVerify
    case Parsed(v) =>
      if v.Null? then CannotVerify
      else if Json.Truthy(Json.Get(v, "safe")) then Safe
      else Unsafe(Json.Get(v, "reason"), Json.Get(v, "category"))
  }

  // ---------------------------------------------------------------- generated text

  predicate IsQuote(c: char) {
    c == '"' || c == '\''
  }

  /** `^["'](.*)["']$`: a quote at each end and no line terminator between them (`.` does not match one). */
  predicate QuotedLine(t: string) {
    |t| >= 2 && IsQuote(t[0]) && IsQuote(t[|t| - 1])
    && forall i :: 1 <= i < |t| - 1 ==> !IsLineTerminator(t[i])
  }

  /** The `replace` that removes one pair of surrounding quotes, matching or not. */
  function StripQuotes(t: string): (r: string)
    ensures QuotedLine(t) ==> |r| == |t| - 2 && t == [t[0]] + r + [t[|t| - 1]]
    ensures !QuotedLine(t) ==> r == t
  {
    if QuotedLine(t) then t[1..|t| - 1] else t
  }

  /** Quoting a one-line text and stripping it gives the text back; only one pair is removed. */
  lemma StripQuotesInverse(open: char, m: string, close: char)
    requires IsQuote(open) && IsQuote(close)
    requires forall i :: 0 <= i < |m| ==> !IsLineTerminator(m[i])
    ensures StripQuotes([open] + m + [close]) == m
  {
    var t := [open] + m + [close];
    forall i | 1 <= i < |t| - 1 ensures !IsLineTerminator(t[i]) {
      assert t[i] == m[i - 1];
    }
    assert t[1..|t| - 1] == m;
  }

  /** A quoted text spanning lines is left as it is, quotes included. */
  lemma StripQuotesKeepsMultiline(t: string, i: int)
    requires 0 < i < |t| - 1 && IsLineTerminator(t[i])
    ensures StripQuotes(t) == t
  {
  }

  /** `content?.trim()?.replace(...)`, where `""` also stands for `undefined`: the trimmed answer without one pair of surrounding quotes. */
  function GeneratedText(content: Option<string>): (r: string)
    ensures content.None? ==> r == ""
    ensures content.Some? && QuotedLine(Trim(content.value)) ==> r == Trim(content.value)[1..|Trim(content.value)| - 1]
    ensures content.Some? && !QuotedLine(Trim(content.value)) ==> r == Trim(content.value)
  {
    StripQuotes(AnswerText(content))
  }

  /** The phrases that mark a refusal, matched against the lower-cased message. */
  const RefusalIndicators: seq<string> := [
    "apologies, but i can't",
    "i can't assist with",
    "i cannot help with",
    "i'm not able to",
    "i cannot provide",
    "i'm unable to",
    "sorry, but i can't"
  ]

  predicate IsRefusal(m: string) {
    exists k :: 0 <= k < |RefusalIndicators| && Contains(ToLower(m), RefusalIndicators[k])
  }

  /** Every indicator is already written in lower case. */
  lemma IndicatorsAreLowerCase(k: nat)
    requires k < |RefusalIndicators|
    ensures NoCapitals(RefusalIndicators[k])
  {
  }

  /** Every indicator is found wherever it is written, in any surrounding text. */
  lemma RefusalAnywhere(before: string, k: nat, after: string)
    requires k < |RefusalIndicators|
    ensures IsRefusal(before + RefusalIndicators[k] + after)
  {
    IndicatorsAreLowerCase(k);
    LowerContainsInfix(before, RefusalIndicators[k], after);
  }

  // ---------------------------------------------------------------- handler

  /**
   * The steps after the moderator judged the prompt safe: the generated text is
   * checked for being empty, for refusal phrases and for length, in that order.
   */
  function Generation(persona: string, prompt: string, gen: ModelCall, now: nat): (o: Outcome)
    ensures o.audit.Some? <==> o.body.Blocked?
    ensures o.body.Generated? <==> o.status == 200
    ensures o.status in {200, 400, 500}
    ensures gen.Threw? ==> o == Outcome(500, GenerateFailed(ErrorText(gen.error)), None)
    ensures gen.Answered? && GeneratedText(gen.content) == "" ==>
      o == Outcome(500, GenerateFailed("Failed to generate SMS content"), None)
    ensures gen.Answered? && GeneratedText(gen.content) != "" && IsRefusal(GeneratedText(gen.content)) ==>
      o == Outcome(400, RefusalBody(now), Some(GenerationRefused(GeneratedText(gen.content), prompt, persona)))
    ensures (gen.Answered? && GeneratedText(gen.content) != "" && !IsRefusal(GeneratedText(gen.content))
             && JsLength(GeneratedText(gen.content)) > MaxLength) ==>
      o == Outcome(400,
        TooLong("Generated message exceeds 160 characters", GeneratedText(gen.content), JsLength(GeneratedText(gen.content))),
        None)
  {
    match gen
    case Threw(error) => Outcome(500, GenerateFailed(ErrorText(error)), None)
    case Answered(content) =>
      var m := GeneratedText(content);
      if m == "" then
        Outcome(500, GenerateFailed("Failed to generate SMS content"), None)
      else if IsRefusal(m) then
        Outcome(400, RefusalBody(now), Some(GenerationRefused(m, prompt, persona)))
      else if JsLength(m) > MaxLength then
        Outcome(400, TooLong("Generated message exceeds 160 characters", m, JsLength(m)), None)
      else
        Outcome(200, Generated(m, persona, JsLength(m), MaxLength - JsLength(m)), None)
  }

  /** The category a refused generation is reported under. */
  const RefusedCategory := "Refused generation"

  /** The body of a refused generation. */
  function RefusalBody(now: nat): GenerateBody {
    Blocked("Content policy violation", "The system cannot generate content for this type of request",
      Json.Str(RefusedCategory), "REF-" + NatToString(now))
  }

  /** The body of a prompt the moderator judged unsafe: its reason, and its category or else `Policy violation`. */
  function InputBlockedBody(reason: Json.Value, category: Json.Value, now: nat): GenerateBody {
    Blocked("Content policy violation", "Your prompt contains inappropriate content: " + Json.ToJsString(reason),
      if Json.Truthy(category) then category else Json.Str("Policy violation"), "VIO-" + NatToString(now))
  }

  /** The moderation step for a request with both fields: a blocked or unverifiable prompt is answered at once. */
  function Moderated(persona: string, prompt: string, pre: ModelCall, preParsed: Json.Parse, gen: ModelCall, now: nat): (o: Outcome)
    ensures o.audit.Some? <==> o.body.Blocked?
    ensures o.body.Generated? <==> o.status == 200
    ensures o.status in {200, 400, 500}
    ensures pre.Answered? && PreCheck(pre.content, preParsed).Safe? ==> o == Generation(persona, prompt, gen, now)
    ensures pre.Threw? ==> o == Outcome(500, GenerateFailed(ErrorText(pre.error)), None)
    ensures pre.Answered? && PreCheck(pre.content, preParsed).CannotVerify? ==>
      o == Outcome(400, Unverified("Content could not be verified as safe"), None)
    ensures pre.Answered? && PreCheck(pre.content, preParsed).Unsafe? ==>
      var v := PreCheck(pre.content, preParsed);
      var shown := if Json.Truthy(v.category) then v.category else Json.Str("Policy violation");
      o == Outcome(400, InputBlockedBody(v.reason, v.category, now), Some(InputBlocked(shown, v.reason, prompt, persona)))
  {
    match pre
    case Threw(error) => Outcome(500, GenerateFailed(ErrorText(error)), None)
    case Answered(preContent) =>
      match PreCheck(preContent, preParsed)
      case CannotVerify => Outcome(400, Unverified("Content could not be verified as safe"), None)
      case Unsafe(reason, category) =>
        var shown := if Json.Truthy(category) then category else Json.Str("Policy violation");
        Outcome(400, InputBlockedBody(reason, category, now), Some(InputBlocked(shown, reason, prompt, persona)))
      case Safe => Generation(persona, prompt, gen, now)
  }

  /** `POST`, with the two model calls, what `JSON.parse` makes of the moderator's text, and `Date.now()` as inputs. */
  function Post(req: Request, pre: ModelCall, preParsed: Json.Parse, gen: ModelCall, now: nat): (o: Outcome)
    ensures o.audit.Some? <==> o.body.Blocked?
    ensures o.body.Generated? <==> o.status == 200
    ensures o.status in {200, 400, 500}
    ensures req.Fields? && Present(req.persona) && Present(req.prompt) ==>
      o == Moderated(req.persona.value, req.prompt.value, pre, preParsed, gen, now)
    ensures req.Unreadable? ==> o == Outcome(500, GenerateFailed(req.error), None)
    ensures req.Fields? && !(Present(req.persona) && Present(req.prompt)) ==>
      o == Outcome(400, GenerateFailed("Persona and prompt are required"), None)
  {
    match req
    case Unreadable(error) => Outcome(500, GenerateFailed(error), None)
    case Fields(persona, prompt) =>
      if !Present(persona) || !Present(prompt) then
        Outcome(400, GenerateFailed("Persona and prompt are required"), None)
      else
        Moderated(persona.value, prompt.value, pre, preParsed, gen, now)
  }

  /** A missing persona or prompt is refused before either model is called: their answers and the clock do not matter. */
  lemma MissingInputIgnoresModels(persona: Option<string>, prompt: Option<string>,
                                  pre: ModelCall, preParsed: Json.Parse, gen: ModelCall, now: nat,
                                  pre': ModelCall, preParsed': Json.Parse, gen': ModelCall, now': nat)
    requires !Present(persona) || !Present(prompt)
    ensures Post(Fields(persona, prompt), pre, preParsed, gen, now) == Post(Fields(persona, prompt), pre', preParsed', gen', now')
    ensures Post(Fields(persona, prompt), pre, preParsed, gen, now) == Outcome(400, GenerateFailed("Persona and prompt are required"), None)
  {
  }

  /** Fail closed: unless the moderator positively marks the prompt safe, the generation model's answer has no effect. */
  lemma UnsafeIgnoresGeneration(req: Request, pre: ModelCall, preParsed: Json.Parse, gen: ModelCall, gen': ModelCall, now: nat)
    requires req.Fields? && pre.Answered? && !PreCheck(pre.content, preParsed).Safe?
    ensures Post(req, pre, preParsed, gen, now) == Post(req, pre, preParsed, gen', now)
    ensures Post(req, pre, preParsed, gen, now).status != 200
  {
  }

  /** A missing or blank moderation answer blocks the prompt with the default reason and category. */
  lemma BlankModerationBlocks(persona: string, prompt: string, content: Option<string>, preParsed: Json.Parse, gen: ModelCall, now: nat)
    requires persona != "" && prompt != "" && AnswerText(content) == ""
    ensures Post(Fields(Some(persona), Some(prompt)), Answered(content), preParsed, gen, now) ==
      Outcome(400,
        Blocked("Content policy violation", "Your prompt contains inappropriate content: Parse error",
          Json.Str("Policy violation"), "VIO-" + NatToString(now)),
        Some(InputBlocked(Json.Str("Policy violation"), Json.Str("Parse error"), prompt, persona)))
  {
    var o := Post(Fields(Some(persona), Some(prompt)), Answered(content), preParsed, gen, now);
    assert o == Moderated(persona, prompt, Answered(content), preParsed, gen, now);
    assert PreCheck(content, preParsed) == Unsafe(Json.Str("Parse error"), Json.Undefined);
    assert Json.ToJsString(Json.Str("Parse error")) == "Parse error";
  }

  /** Unparseable moderator text, or `null`, is blocked as unverifiable, without an audit record and without generating. */
  lemma UnverifiableIsBlocked(persona: string, prompt: string, content: Option<string>, preParsed: Json.Parse, gen: ModelCall, now: nat)
    requires persona != "" && prompt != "" && AnswerText(content) != ""
    requires preParsed.Unparseable? || preParsed.value.Null?
    ensures Post(Fields(Some(persona), Some(prompt)), Answered(content), preParsed, gen, now) ==
      Outcome(400, Unverified("Content could not be verified as safe"), None)
  {
  }

  /**
   * A parsed verdict without a truthy `safe` blocks the prompt: the reason is shown
   * after the fixed text, the category falls back to `Policy violation`, the id
   * is `VIO-` and the clock, and the block is audited.
   */
  lemma UnsafeVerdictIsBlocked(persona: string, prompt: string, content: Option<string>, verdict: Json.Value, gen: ModelCall, now: nat)
    requires persona != "" && prompt != "" && AnswerText(content) != ""
    requires !verdict.Null? && !Json.Truthy(Json.Get(verdict, "safe"))
    ensures
      var category := Json.Get(verdict, "category");
      var shown := if Json.Truthy(category) then category else Json.Str("Policy violation");
      Post(Fields(Some(persona), Some(prompt)), Answered(content), Json.Parsed(verdict), gen, now) ==
      Outcome(400,
        Blocked("Content policy violation",
          "Your prompt contains inappropriate content: " + Json.ToJsString(Json.Get(verdict, "reason")),
          shown, "VIO-" + NatToString(now)),
        Some(InputBlocked(shown, Json.Get(verdict, "reason"), prompt, persona)))
  {
  }

  /** After a safe verdict, an answer that is empty once trimmed and stripped of quotes is a 500. */
  lemma EmptyGenerationFails(persona: string, prompt: string, pre: ModelCall, preParsed: Json.Parse, content: Option<string>, now: nat)
    requires persona != "" && prompt != "" && pre.Answered? && PreCheck(pre.content, preParsed).Safe?
    requires GeneratedText(content) == ""
    ensures Post(Fields(Some(persona), Some(prompt)), pre, preParsed, Answered(content), now) ==
      Outcome(500, GenerateFailed("Failed to generate SMS content"), None)
  {
  }

  /** After a safe verdict, a text over 160 code units that is no refusal is returned with its length and a 400. */
  lemma LongGenerationRejected(persona: string, prompt: string, pre: ModelCall, preParsed: Json.Parse, content: Option<string>, now: nat)
    requires persona != "" && prompt != "" && pre.Answered? && PreCheck(pre.content, preParsed).Safe?
    requires GeneratedText(content) != "" && !IsRefusal(GeneratedText(content)) && JsLength(GeneratedText(content)) > MaxLength
    ensures Post(Fields(Some(persona), Some(prompt)), pre, preParsed, Answered(content), now) ==
      Outcome(400,
        TooLong("Generated message exceeds 160 characters", GeneratedText(content), JsLength(GeneratedText(content))),
        None)
  {
  }

  /**
   * After a safe verdict, 200 happens exactly for a generated text that is non-empty,
   * no refusal and at most 160 code units; the counts then add up to 160.
   */
  lemma GenerationSuccessIff(persona: string, prompt: string, gen: ModelCall, now: nat)
    ensures Generation(persona, prompt, gen, now).status == 200 <==>
      gen.Answered? && GeneratedText(gen.content) != "" && !IsRefusal(GeneratedText(gen.content))
      && JsLength(GeneratedText(gen.content)) <= MaxLength
    ensures Generation(persona, prompt, gen, now).status == 200 ==>
      var body := Generation(persona, prompt, gen, now).body;
      body.message == GeneratedText(gen.content) && body.persona == persona
      && body.length == JsLength(body.message) && body.charactersRemaining >= 0
      && body.length + body.charactersRemaining == MaxLength
  {
  }

  /**
   * A 200 response happens exactly when the prompt was judged safe and the generated
   * text is non-empty, no refusal, and at most 160 code units; the counts then add up to 160.
   */
  lemma SuccessIff(persona: string, prompt: string, pre: ModelCall, preParsed: Json.Parse, gen: ModelCall, now: nat)
    ensures Post(Fields(Some(persona), Some(prompt)), pre, preParsed, gen, now).status == 200 <==>
      persona != "" && prompt != "" && pre.Answered? && PreCheck(pre.content, preParsed).Safe? && gen.Answered?
      && GeneratedText(gen.content) != "" && !IsRefusal(GeneratedText(gen.content))
      && JsLength(GeneratedText(gen.content)) <= MaxLength
    ensures Post(Fields(Some(persona), Some(prompt)), pre, preParsed, gen, now).status == 200 ==>
      var body := Post(Fields(Some(persona), Some(prompt)), pre, preParsed, gen, now).body;
      body.message == GeneratedText(gen.content) && body.persona == persona
      && body.length == JsLength(body.message) && body.charactersRemaining >= 0
      && body.length + body.charactersRemaining == MaxLength
  {
    var o := Post(Fields(Some(persona), Some(prompt)), pre, preParsed, gen, now);
    if persona != "" && prompt != "" {
      assert o == Moderated(persona, prompt, pre, preParsed, gen, now);
      if pre.Answered? && PreCheck(pre.content, preParsed).Safe? {
        assert o == Generation(persona, prompt, gen, now);
        GenerationSuccessIff(persona, prompt, gen, now);
      } else {
        assert o.status != 200;
      }
    } else {
      assert o.status == 400;
    }
  }

  /** The refusal check comes before the length check: a long refusal is reported as a policy block and audited. */
  lemma RefusalBeforeLength(persona: string, prompt: string, pre: ModelCall, preParsed: Json.Parse, content: string, now: nat)
    requires persona != "" && prompt != "" && pre.Answered? && PreCheck(pre.content, preParsed).Safe?
    requires GeneratedText(Some(content)) != "" && IsRefusal(GeneratedText(Some(content)))
    ensures Post(Fields(Some(persona), Some(prompt)), pre, preParsed, Answered(Some(content)), now).body ==
      Blocked("Content policy violation", "The system cannot generate content for this type of request",
        Json.Str(RefusedCategory), "REF-" + NatToString(now))
    ensures Post(Fields(Some(persona), Some(prompt)), pre, preParsed, Answered(Some(content)), now).audit ==
      Some(GenerationRefused(GeneratedText(Some(content)), prompt, persona))
  {
    assert Post(Fields(Some(persona), Some(prompt)), pre, preParsed, Answered(Some(content)), now)
      == Generation(persona, prompt, Answered(Some(content)), now);
  }
}
